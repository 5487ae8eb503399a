/** Maps of rooms and corridors: what the generator carves, and why it is all one piece. */
module CombatRooms {
  import opened Paths
  import opened RowMajor
  import opened CombatGrid
  import opened CombatMoves

  datatype Room = Room(x: int, y: int, w: int, h: int) {
    function Center(): Pos { Pos(x + w / 2, y + h / 2) }

    predicate Overlaps(other: Room, margin: int) {
      && x - margin < other.x + other.w && x + w + margin > other.x
      && y - margin < other.y + other.h && y + h + margin > other.y
    }

    function Area(): Rect { Rect(x, y, x + w - 1, y + h - 1) }

    /** Some cell, and no cell on the outer ring of a w*h map. */
    predicate Inside(mapW: int, mapH: int) {
      w >= 1 && h >= 1 && 1 <= x && 1 <= y && x + w <= mapW - 1 && y + h <= mapH - 1
    }
  }

  function Min(a: int, b: int): int { if b < a then b else a }

  function Max(a: int, b: int): int { if b < a then a else b }

  function HorizontalLeg(x1: int, x2: int, y: int): Rect { Rect(Min(x1, x2), y, Max(x1, x2), y) }

  function VerticalLeg(y1: int, y2: int, x: int): Rect { Rect(x, Min(y1, y2), x, Max(y1, y2)) }

  /** An L-shaped corridor between two centres, bent one way or the other. */
  function CarveCorridor(v: GridView, a: Pos, b: Pos, across: bool): GridView {
    if across then v.Carve(HorizontalLeg(a.x, b.x, a.y)).Carve(VerticalLeg(a.y, b.y, b.x))
    else v.Carve(VerticalLeg(a.y, b.y, a.x)).Carve(HorizontalLeg(a.x, b.x, b.y))
  }

  function SolidRock(w: int, h: int): GridView {
    GridView(w, h, map p | p in Cells(w, h) :: WALL)
  }

  /** The map after placing these rooms in order, each joined to the one before. */
  function Layout(w: int, h: int, placed: seq<Room>, bends: seq<bool>): GridView
    requires |bends| == |placed|
  {
    if placed == [] then SolidRock(w, h) else
    var n := |placed| - 1;
    var v := Layout(w, h, placed[..n], bends[..n]).Carve(placed[n].Area());
    if n == 0 then v else CarveCorridor(v, placed[n - 1].Center(), placed[n].Center(), bends[n])
  }

  /** The rooms lie inside the ring, no two within a cell of each other. */
  ghost predicate Separated(w: int, h: int, placed: seq<Room>) {
    && (forall i :: 0 <= i < |placed| ==> placed[i].Inside(w, h))
    && (forall i, j :: 0 <= i < j < |placed| ==> !placed[j].Overlaps(placed[i], 1))
  }

  /** What a margin of one means: rooms overlap exactly when some cell of one equals or
      is a king's move from some cell of the other. */
  lemma OverlapMeansTouching(a: Room, b: Room)
    requires a.w >= 1 && a.h >= 1 && b.w >= 1 && b.h >= 1
    ensures a.Overlaps(b, 1) <==> exists p, q :: a.Area().Has(p) && b.Area().Has(q) && (p == q || Near(p, q))
  {
    if a.Overlaps(b, 1) {
      var px := Min(Max(a.x, b.x), a.x + a.w - 1);
      var qx := Min(Max(a.x, b.x), b.x + b.w - 1);
      var py := Min(Max(a.y, b.y), a.y + a.h - 1);
      var qy := Min(Max(a.y, b.y), b.y + b.h - 1);
      assert a.Area().Has(Pos(px, py)) && b.Area().Has(Pos(qx, qy));
    }
  }

  // ----- One piece

  ghost predicate AllJoined(v: GridView, from: Pos) {
    forall p :: p in v.Open() ==> Joined(v.Open(), from, p)
  }

  lemma CarveShaped(v: GridView, r: Rect)
    requires v.Shaped()
    ensures v.Carve(r).Shaped() && v.Open() <= v.Carve(r).Open()
    ensures forall p :: p in v.Carve(r).Open() <==> p in v.Open() || (r.Has(p) && v.InBounds(p))
  {
  }

  /** Carving a rectangle that contains an open cell keeps the map in one piece. */
  lemma CarveJoins(v: GridView, r: Rect, from: Pos, c: Pos)
    requires v.Shaped() && AllJoined(v, from) && c in v.Open() && r.Has(c)
    requires forall p :: r.Has(p) ==> v.InBounds(p)
    ensures AllJoined(v.Carve(r), from)
  {
    CarveShaped(v, r);
    var open, wider := v.Open(), v.Carve(r).Open();
    forall p | p in wider ensures Joined(wider, from, p) {
      if p in open {
        JoinedGrows(open, wider, from, p);
      } else {
        JoinedGrows(open, wider, from, c);
        RectJoined(wider, r, c, p);
        JoinedTrans(wider, from, c, p);
      }
    }
  }

  ghost predicate InsideMap(v: GridView, r: Rect) {
    r.minX >= 1 && r.minY >= 1 && r.maxX <= v.width - 2 && r.maxY <= v.height - 2
  }

  /** The open cells avoid the outer ring. */
  ghost predicate RingClosed(v: GridView) {
    forall p :: p in v.Open() ==> 1 <= p.x <= v.width - 2 && 1 <= p.y <= v.height - 2
  }

  /** One carving step of a corridor: from an open cell c, over a leg inside the map. */
  ghost predicate Good(v: GridView, from: Pos) {
    v.Shaped() && AllJoined(v, from) && RingClosed(v)
  }

  lemma GoodCarve(v: GridView, r: Rect, from: Pos, c: Pos)
    requires Good(v, from) && c in v.Open() && r.Has(c) && InsideMap(v, r)
    ensures Good(v.Carve(r), from) && forall p :: r.Has(p) || p in v.Open() ==> p in v.Carve(r).Open()
  {
    CarveJoins(v, r, from, c);
    CarveShaped(v, r);
  }

  /** The order of carving does not matter. */
  lemma CarveCommutes(v: GridView, r1: Rect, r2: Rect)
    ensures v.Carve(r1).Carve(r2) == v.Carve(r2).Carve(r1)
  {
  }

  lemma RoomThenCorridor(v: GridView, a: Pos, room: Room, across: bool)
    ensures CarveCorridor(v.Carve(room.Area()), a, room.Center(), across) == CarveCorridor(v, a, room.Center(), across).Carve(room.Area())
  {
    var b := room.Center();
    var r1 := if across then HorizontalLeg(a.x, b.x, a.y) else VerticalLeg(a.y, b.y, a.x);
    var r2 := if across then VerticalLeg(a.y, b.y, b.x) else HorizontalLeg(a.x, b.x, b.y);
    CarveCommutes(v, room.Area(), r1);
    CarveCommutes(v.Carve(r1), room.Area(), r2);
  }

  /** A room and its corridor, taken as corridor first and room after: the corridor ends
      at the room's centre. */
  lemma CorridorThenRoom(v: GridView, from: Pos, a: Pos, room: Room, across: bool)
    requires Good(v, from) && a in v.Open() && room.Inside(v.width, v.height)
    ensures Good(CarveCorridor(v, a, room.Center(), across).Carve(room.Area()), from)
    ensures forall p :: p in v.Open() || room.Area().Has(p) ==>
              p in CarveCorridor(v, a, room.Center(), across).Carve(room.Area()).Open()
  {
    var b := room.Center();
    var bend := if across then Pos(b.x, a.y) else Pos(a.x, b.y);
    var r1 := if across then HorizontalLeg(a.x, b.x, a.y) else VerticalLeg(a.y, b.y, a.x);
    var r2 := if across then VerticalLeg(a.y, b.y, b.x) else HorizontalLeg(a.x, b.x, b.y);
    GoodCarve(v, r1, from, a);
    GoodCarve(v.Carve(r1), r2, from, bend);
    GoodCarve(v.Carve(r1).Carve(r2), room.Area(), from, b);
  }

  lemma AddRoom(v: GridView, from: Pos, a: Pos, room: Room, across: bool)
    requires Good(v, from) && a in v.Open() && room.Inside(v.width, v.height)
    ensures var m := CarveCorridor(v.Carve(room.Area()), a, room.Center(), across);
            Good(m, from) && m.width == v.width && m.height == v.height
            && forall p :: p in v.Open() || room.Area().Has(p) ==> p in m.Open()
  {
    RoomThenCorridor(v, a, room, across);
    CorridorThenRoom(v, from, a, room, across);
  }

  /** The map in one piece around the first room, every room open. */
  ghost predicate Playable(w: int, h: int, placed: seq<Room>, bends: seq<bool>)
    requires |bends| == |placed|
  {
    var v := Layout(w, h, placed, bends);
    && v.width == w && v.height == h
    && (placed == [] ==> v.Shaped() && v.Open() == {})
    && (placed != [] ==> Good(v, placed[0].Center()))
    && (forall i, p :: 0 <= i < |placed| && placed[i].Area().Has(p) ==> p in v.Open())
  }

  lemma FirstRoom(w: int, h: int, room: Room)
    requires room.Inside(w, h)
    ensures Good(SolidRock(w, h).Carve(room.Area()), room.Center())
    ensures SolidRock(w, h).Carve(room.Area()).width == w && SolidRock(w, h).Carve(room.Area()).height == h
    ensures forall p :: room.Area().Has(p) ==> p in SolidRock(w, h).Carve(room.Area()).Open()
  {
    var rock := SolidRock(w, h);
    assert rock.Shaped() && rock.Open() == {};
    CarveShaped(rock, room.Area());
    var open := rock.Carve(room.Area()).Open();
    forall p | p in open ensures Joined(open, room.Center(), p) {
      RectJoined(open, room.Area(), room.Center(), p);
    }
  }

  lemma CenterInside(r: Room, w: int, h: int)
    requires r.Inside(w, h)
    ensures r.Area().Has(r.Center())
  {
  }

  lemma SolidRockIsClosed(w: int, h: int)
    ensures SolidRock(w, h).Shaped() && SolidRock(w, h).Open() == {}
    ensures SolidRock(w, h).width == w && SolidRock(w, h).height == h
  {
  }

  /** Whatever rooms are placed and however corridors bend, the map is one piece. */
  lemma {:induction false} LayoutsArePlayable(w: int, h: int, placed: seq<Room>, bends: seq<bool>)
    requires |bends| == |placed| && Separated(w, h, placed)
    ensures Playable(w, h, placed, bends)
  {
    hide Good, CarveCorridor, GridView.Carve, SolidRock, Room.Inside, Room.Overlaps, Room.Center, Room.Area, GridView.Open;
    SolidRockIsClosed(w, h);
    if placed != [] {
      var n := |placed| - 1;
      var ps, bs := placed[..n], bends[..n];
      LayoutsArePlayable(w, h, ps, bs);
      var v := Layout(w, h, ps, bs);
      if n == 0 {
        FirstRoom(w, h, placed[0]);
      } else {
        var a := placed[n - 1].Center();
        CenterInside(placed[n - 1], w, h);
        assert ps[n - 1] == placed[n - 1];
        AddRoom(v, placed[0].Center(), a, placed[n], bends[n]);
      }
      forall i, p | 0 <= i <= n && placed[i].Area().Has(p) ensures p in Layout(w, h, placed, bends).Open() {
        assert i < n ==> ps[i].Area().Has(p);
      }
    }
  }

  // ----- Exactly which cells are open

  predicate InRoom(r: Room, p: Pos) { r.x <= p.x < r.x + r.w && r.y <= p.y < r.y + r.h }

  predicate Between(a: int, b: int, v: int) { a <= v <= b || b <= v <= a }

  /** On the way between the middles of two rooms, along one axis and then the other. */
  predicate OnWay(from: Room, to: Room, across: bool, p: Pos) {
    var x1, y1, x2, y2 := from.x + from.w / 2, from.y + from.h / 2, to.x + to.w / 2, to.y + to.h / 2;
    if across then (p.y == y1 && Between(x1, x2, p.x)) || (p.x == x2 && Between(y1, y2, p.y))
    else (p.x == x1 && Between(y1, y2, p.y)) || (p.y == y2 && Between(x1, x2, p.x))
  }

  /** Room i, or the way to it from the room before, opens p. */
  predicate OpenedBy(placed: seq<Room>, bends: seq<bool>, i: int, p: Pos)
    requires |bends| == |placed|
  {
    0 <= i < |placed| && (InRoom(placed[i], p) || (i > 0 && OnWay(placed[i - 1], placed[i], bends[i], p)))
  }

  lemma CarveOpens(v: GridView, r: Rect, p: Pos)
    requires v.Shaped()
    ensures var m := v.Carve(r);
            && m.Shaped() && m.width == v.width && m.height == v.height
            && (p in m.cells <==> p in v.cells)
            && (p in v.cells ==> m.cells[p] == if r.Has(p) then OPEN_FLOOR else v.cells[p])
  {
  }

  lemma WayOpens(v: GridView, from: Room, to: Room, across: bool, p: Pos)
    requires v.Shaped()
    ensures var m := CarveCorridor(v, from.Center(), to.Center(), across);
            && m.Shaped() && m.width == v.width && m.height == v.height
            && (p in m.cells <==> p in v.cells)
            && (p in v.cells ==> m.cells[p] == if OnWay(from, to, across, p) then OPEN_FLOOR else v.cells[p])
  {
    hide GridView.Carve;
    var a, b := from.Center(), to.Center();
    var r1 := if across then HorizontalLeg(a.x, b.x, a.y) else VerticalLeg(a.y, b.y, a.x);
    var r2 := if across then VerticalLeg(a.y, b.y, b.x) else HorizontalLeg(a.x, b.x, b.y);
    CarveOpens(v, r1, p);
    CarveOpens(v.Carve(r1), r2, p);
  }

  /** The map cell by cell: open floor in the rooms and on the ways between each and the one
      before, and everywhere else a wall that blocks movement and sight. */
  lemma {:induction false} LayoutExactly(w: int, h: int, placed: seq<Room>, bends: seq<bool>, p: Pos)
    requires |bends| == |placed|
    ensures var v := Layout(w, h, placed, bends);
            && v.Shaped() && v.width == w && v.height == h
            && (p in v.cells ==> v.cells[p] == if exists i :: OpenedBy(placed, bends, i, p) then Cell(false, false, false)
                                                else Cell(true, true, false))
  {
    hide GridView.Carve, CarveCorridor, OnWay, InRoom, SolidRock, Room.Center;
    if placed == [] {
      RockIsWall(w, h, p);
    } else {
      var n := |placed| - 1;
      var ps, bs := placed[..n], bends[..n];
      LayoutExactly(w, h, ps, bs, p);
      var before := Layout(w, h, ps, bs);
      CarveOpens(before, placed[n].Area(), p);
      AreaIsRoom(placed[n], p);
      if n > 0 {
        WayOpens(before.Carve(placed[n].Area()), placed[n - 1], placed[n], bends[n], p);
      }
      forall i | 0 <= i < n ensures OpenedBy(ps, bs, i, p) <==> OpenedBy(placed, bends, i, p) {
        assert ps[i] == placed[i] && (i > 0 ==> ps[i - 1] == placed[i - 1]) && bs[i] == bends[i];
      }
      assert OpenedBy(placed, bends, n, p) <==>
               InRoom(placed[n], p) || (n > 0 && OnWay(placed[n - 1], placed[n], bends[n], p));
    }
  }

  lemma RockIsWall(w: int, h: int, p: Pos)
    ensures SolidRock(w, h).Shaped() && SolidRock(w, h).width == w && SolidRock(w, h).height == h
    ensures p in SolidRock(w, h).cells ==> SolidRock(w, h).cells[p] == Cell(true, true, false)
  {
  }

  lemma AreaIsRoom(r: Room, p: Pos)
    ensures r.Area().Has(p) <==> InRoom(r, p)
  {
  }

  /** v is a map the generator can make. */
  ghost predicate IsLayout(w: int, h: int, v: GridView) {
    exists placed: seq<Room>, bends: seq<bool> ::
      w > 0 && h > 0 && |bends| == |placed| && Separated(w, h, placed) && v == Layout(w, h, placed, bends)
  }

  /** Generator and movement together: any open cell of a generated map can be reached
      from any other by a legal move, given speed for the whole map. */
  lemma {:induction false} EveryMoveIsLegal(w: int, h: int, v: GridView, p: Pos, q: Pos, feet: int) returns (n: nat)
    requires IsLayout(w, h, v) && p in v.Open() && q in v.Open()
    requires feet >= FEET_PER_CELL * (w * h)
    ensures Legal(v, p, q, feet, n)
  {
    hide Layout;
    var placed: seq<Room>, bends: seq<bool> :|
      w > 0 && h > 0 && |bends| == |placed| && Separated(w, h, placed) && v == Layout(w, h, placed, bends);
    LayoutsArePlayable(w, h, placed, bends);
    var c := placed[0].Center();
    JoinedSym(v.Open(), c, p);
    JoinedTrans(v.Open(), p, c, q);
    n := JoinedMeansLegal(v, p, q, feet);
  }
}
