/** The rooms-and-corridors generator: loops that carve the grid in place, proved to
    produce a layout of separated rooms. */
module CombatGenerator {
  import opened Paths
  import opened RowMajor
  import opened Random
  import opened CombatGrid
  import opened CombatRooms

  datatype GenerateOptions = GenerateOptions(width: int, height: int, roomAttempts: int, minRoomSize: int, maxRoomSize: int) {
    predicate WellFormed() { width > 0 && height > 0 && roomAttempts > 0 && maxRoomSize > 0 }

    /** A side a room may have: at least one and no longer than asked for, and no shorter
        than asked for unless it is the longest. */
    predicate AllowsSide(n: int) { 1 <= n <= maxRoomSize && (n >= minRoomSize || n == maxRoomSize) }

    /** The room leaves the outer ring of the map free. */
    predicate HasSpaceFor(r: Room) { r.w < width - 1 && r.h < height - 1 }
  }

  function CarveTo(v: GridView, r: Rect, x: int, y: int): GridView {
    v.(cells := map p | p in v.cells :: if r.Swept(x, y, p) then OPEN_FLOOR else v.cells[p])
  }

  lemma CarveStep(v: GridView, r: Rect, x: int, y: int)
    requires r.Has(Pos(x, y))
    ensures CarveTo(v, r, x, y).Set(Pos(x, y), OPEN_FLOOR) == CarveTo(v, r, x + 1, y)
  {
    assert forall p: Pos :: p.x == x && p.y == y ==> p == Pos(x, y);
  }

  lemma CarveNextRow(v: GridView, r: Rect, x: int, y: int)
    requires x > r.maxX
    ensures CarveTo(v, r, x, y) == CarveTo(v, r, r.minX, y + 1)
  {
  }

  lemma CarveStart(v: GridView, r: Rect)
    ensures CarveTo(v, r, r.minX, r.minY) == v
  {
    assert CarveTo(v, r, r.minX, r.minY).cells == v.cells;
  }

  lemma CarveEnd(v: GridView, r: Rect, y: int)
    requires y > r.maxY
    ensures CarveTo(v, r, r.minX, y) == v.Carve(r)
  {
  }

  method CarveRow(g: Grid, r: Rect, y: int, ghost was: GridView)
    requires g.Valid() && r.minY <= y <= r.maxY && g.View() == CarveTo(was, r, r.minX, y)
    modifies g.Cells
    ensures g.View() == CarveTo(was, r, r.minX, y + 1)
  {
    var x := r.minX;
    while x <= r.maxX
      invariant r.minX <= x && g.View() == CarveTo(was, r, x, y)
    {
      g.Set(x, y, OPEN_FLOOR);
      CarveStep(was, r, x, y);
      x := x + 1;
    }
    CarveNextRow(was, r, x, y);
  }

  method CarveRoom(g: Grid, room: Room)
    requires g.Valid()
    modifies g.Cells
    ensures g.View() == old(g.View()).Carve(room.Area())
  {
    var r := room.Area();
    ghost var was := g.View();
    CarveStart(was, r);
    var y := room.y;
    while y < room.y + room.h
      invariant r.minY <= y && g.View() == CarveTo(was, r, r.minX, y)
    {
      CarveRow(g, r, y, was);
      y := y + 1;
    }
    CarveEnd(was, r, y);
  }

  method CarveHorizontal(g: Grid, x1: int, x2: int, y: int)
    requires g.Valid()
    modifies g.Cells
    ensures g.View() == old(g.View()).Carve(HorizontalLeg(x1, x2, y))
  {
    ghost var was := g.View();
    ghost var r := HorizontalLeg(x1, x2, y);
    var x, last := x1, x2;
    if x2 < x1 {
      x, last := x2, x1;
    }
    CarveStart(was, r);
    while x <= last
      invariant r.minX <= x && g.View() == CarveTo(was, r, x, y)
    {
      g.Set(x, y, OPEN_FLOOR);
      CarveStep(was, r, x, y);
      x := x + 1;
    }
    CarveNextRow(was, r, x, y);
    CarveEnd(was, r, y + 1);
  }

  method CarveVertical(g: Grid, y1: int, y2: int, x: int)
    requires g.Valid()
    modifies g.Cells
    ensures g.View() == old(g.View()).Carve(VerticalLeg(y1, y2, x))
  {
    ghost var was := g.View();
    ghost var r := VerticalLeg(y1, y2, x);
    var y, last := y1, y2;
    if y2 < y1 {
      y, last := y2, y1;
    }
    CarveStart(was, r);
    while y <= last
      invariant r.minY <= y && g.View() == CarveTo(was, r, r.minX, y)
    {
      g.Set(x, y, OPEN_FLOOR);
      CarveStep(was, r, x, y);
      CarveNextRow(was, r, x + 1, y);
      y := y + 1;
    }
    CarveEnd(was, r, y);
  }

  method CarveCorridorBetween(g: Grid, rnd: Rand, from: Room, to: Room) returns (ghost across: bool)
    requires g.Valid()
    modifies g.Cells
    ensures g.View() == CarveCorridor(old(g.View()), from.Center(), to.Center(), across)
  {
    var a, b := from.Center(), to.Center();
    var coin := rnd.Intn(2);
    across := coin == 0;
    if coin == 0 {
      CarveHorizontal(g, a.x, b.x, a.y);
      CarveVertical(g, a.y, b.y, b.x);
    } else {
      CarveVertical(g, a.y, b.y, a.x);
      CarveHorizontal(g, a.x, b.x, b.y);
    }
  }

  /** A candidate room of random size, and of random place when there is space for it. */
  method RollRoom(o: GenerateOptions, rnd: Rand) returns (ok: bool, r: Room)
    requires o.WellFormed()
    ensures 1 <= r.w <= o.maxRoomSize && (r.w >= o.minRoomSize || r.w == o.maxRoomSize)
    ensures 1 <= r.h <= o.maxRoomSize && (r.h >= o.minRoomSize || r.h == o.maxRoomSize)
    ensures ok <==> r.w < o.width - 1 && r.h < o.height - 1
    ensures ok ==> 1 <= r.x && 1 <= r.y && r.x + r.w < o.width && r.y + r.h < o.height
  {
    var minSize := o.minRoomSize;
    if minSize <= 0 {
      minSize := 1;
    }
    if minSize > o.maxRoomSize {
      minSize := o.maxRoomSize;
    }
    var dw := rnd.Intn(o.maxRoomSize - minSize + 1);
    var dh := rnd.Intn(o.maxRoomSize - minSize + 1);
    var w, h := minSize + dw, minSize + dh;
    if w >= o.width - 1 || h >= o.height - 1 {
      return false, Room(0, 0, w, h);
    }
    var dx := rnd.Intn(o.width - w - 1);
    var dy := rnd.Intn(o.height - h - 1);
    ok, r := true, Room(1 + dx, 1 + dy, w, h);
  }

  method OverlapsAny(r: Room, placed: seq<Room>) returns (b: bool)
    ensures b <==> exists i :: 0 <= i < |placed| && r.Overlaps(placed[i], 1)
  {
    b := false;
    var i := 0;
    while i < |placed| && !b
      invariant 0 <= i <= |placed|
      invariant b <==> exists j :: 0 <= j < i && r.Overlaps(placed[j], 1)
    {
      b := r.Overlaps(placed[i], 1);
      i := i + 1;
    }
  }

  ghost predicate SizesFit(o: GenerateOptions, placed: seq<Room>) {
    forall i :: 0 <= i < |placed| ==> o.AllowsSide(placed[i].w) && o.AllowsSide(placed[i].h)
  }

  /** Placed, or given up for want of space or because it touches a room placed. */
  ghost predicate Settled(o: GenerateOptions, r: Room, placed: seq<Room>) {
    r in placed || r.w >= o.width - 1 || r.h >= o.height - 1 || exists i :: 0 <= i < |placed| && r.Overlaps(placed[i], 1)
  }

  /** Every room rolled is settled, and only rooms rolled are placed. */
  ghost predicate AllSettled(o: GenerateOptions, rolled: seq<Room>, placed: seq<Room>) {
    && (forall i :: 0 <= i < |rolled| ==> Settled(o, rolled[i], placed))
    && (forall r :: r in placed ==> r in rolled)
  }

  lemma SettleOne(o: GenerateOptions, rolled: seq<Room>, placed: seq<Room>, r: Room, more: seq<Room>)
    requires AllSettled(o, rolled, placed)
    requires more == if o.HasSpaceFor(r) && (forall i :: 0 <= i < |placed| ==> !r.Overlaps(placed[i], 1))
                     then placed + [r] else placed
    ensures AllSettled(o, rolled + [r], more)
  {
    hide Room.Overlaps;
    forall i | 0 <= i <= |rolled| ensures Settled(o, (rolled + [r])[i], more) {
      if i < |rolled| {
        assert Settled(o, rolled[i], placed);
        if j :| 0 <= j < |placed| && rolled[i].Overlaps(placed[j], 1) {
          assert more[j] == placed[j];
        }
      }
    }
  }

  lemma PlaceRoom(w: int, h: int, placed: seq<Room>, bends: seq<bool>, r: Room, across: bool)
    requires |bends| == |placed| && Separated(w, h, placed) && r.Inside(w, h)
    requires forall i :: 0 <= i < |placed| ==> !r.Overlaps(placed[i], 1)
    ensures Separated(w, h, placed + [r])
    ensures var v := Layout(w, h, placed, bends).Carve(r.Area());
            Layout(w, h, placed + [r], bends + [across]) ==
              if placed == [] then v else CarveCorridor(v, placed[|placed| - 1].Center(), r.Center(), across)
  {
    var ps, bs := placed + [r], bends + [across];
    var n := |placed|;
    assert ps[..n] == placed && bs[..n] == bends;
  }

  /** One attempt: the room rolled is placed and joined to the one before exactly when there
      is space for it and it keeps clear of the rooms placed. */
  method PlaceOne(g: Grid, o: GenerateOptions, rnd: Rand, placed0: seq<Room>, ghost bends0: seq<bool>)
    returns (placed: seq<Room>, ghost bends: seq<bool>, ghost rolled: Room)
    requires o.WellFormed() && g.Valid() && |bends0| == |placed0|
    requires Separated(o.width, o.height, placed0) && SizesFit(o, placed0)
    requires g.View() == Layout(o.width, o.height, placed0, bends0)
    modifies g.Cells
    ensures o.AllowsSide(rolled.w) && o.AllowsSide(rolled.h)
    ensures placed == if o.HasSpaceFor(rolled) && (forall i :: 0 <= i < |placed0| ==> !rolled.Overlaps(placed0[i], 1))
                      then placed0 + [rolled] else placed0
    ensures |bends| == |placed| && Separated(o.width, o.height, placed) && SizesFit(o, placed)
    ensures g.View() == Layout(o.width, o.height, placed, bends)
  {
    hide Grid.View, CarveCorridor, GridView.Carve, Room.Overlaps, SolidRock, Layout, Separated;
    placed, bends := placed0, bends0;
    var ok, r := RollRoom(o, rnd);
    rolled := r;
    if !ok {
      return;
    }
    var overlaps := OverlapsAny(r, placed);
    if !overlaps {
      CarveRoom(g, r);
      ghost var across := false;
      if |placed| > 0 {
        across := CarveCorridorBetween(g, rnd, placed[|placed| - 1], r);
      }
      PlaceRoom(o.width, o.height, placed, bends, r, across);
      placed, bends := placed + [r], bends + [across];
    }
  }

  lemma NoRooms(w: int, h: int)
    ensures Separated(w, h, []) && Layout(w, h, [], []) == SolidRock(w, h)
  {
  }

  /** Null for a malformed request; otherwise a layout of separated rooms within the
      requested sizes: of the rooms rolled, one an attempt, those that had to be given up are
      left out and no others. */
  method GenerateRoomsAndCorridors(o: GenerateOptions, rnd: Rand?)
    returns (g: Grid?, ghost placed: seq<Room>, ghost bends: seq<bool>, ghost rolled: seq<Room>)
    ensures g == null <==> o.width <= 0 || o.height <= 0 || o.roomAttempts <= 0 || o.maxRoomSize <= 0 || rnd == null
    ensures g != null ==>
              && g.Valid() && fresh(g) && fresh(g.Cells)
              && |bends| == |placed| <= o.roomAttempts
              && Separated(o.width, o.height, placed) && SizesFit(o, placed)
              && g.View() == Layout(o.width, o.height, placed, bends)
    ensures g != null ==> |rolled| == o.roomAttempts && SizesFit(o, rolled) && AllSettled(o, rolled, placed)
    ensures g != null && o.maxRoomSize <= o.width - 2 && o.maxRoomSize <= o.height - 2 ==> placed != []
    ensures g != null ==> IsLayout(o.width, o.height, g.View())
  {
    hide Grid.View, Layout, Separated, SizesFit, SolidRock, IsLayout, AllSettled, GenerateOptions.AllowsSide;
    placed, bends, rolled := [], [], [];
    if !o.WellFormed() || rnd == null {
      return null, [], [], [];
    }
    g := new Grid(o.width, o.height, WALL);
    SameSolidRock(g.View());
    NoRooms(o.width, o.height);
    NoSizes(o);
    var rooms: seq<Room> := [];
    var i := 0;
    while i < o.roomAttempts
      invariant 0 <= i <= o.roomAttempts && g.Valid() && fresh(g.Cells)
      invariant rooms == placed && |bends| == |placed| <= i
      invariant Separated(o.width, o.height, placed) && SizesFit(o, placed)
      invariant g.View() == Layout(o.width, o.height, placed, bends)
      invariant |rolled| == i && SizesFit(o, rolled) && AllSettled(o, rolled, placed)
    {
      ghost var one: Room;
      rooms, bends, one := PlaceOne(g, o, rnd, rooms, bends);
      SettleOne(o, rolled, placed, one, rooms);
      OneMoreSize(o, rolled, one);
      placed, rolled := rooms, rolled + [one];
      i := i + 1;
    }
    LayoutIs(o.width, o.height, placed, bends);
    SomeRoomSettles(o, rolled, placed);
  }

  lemma NoSizes(o: GenerateOptions)
    ensures SizesFit(o, []) && AllSettled(o, [], [])
  {
  }

  lemma OneMoreSize(o: GenerateOptions, rolled: seq<Room>, r: Room)
    requires SizesFit(o, rolled) && o.AllowsSide(r.w) && o.AllowsSide(r.h)
    ensures SizesFit(o, rolled + [r])
  {
  }

  /** When every room rolled has space, the first is placed, or another that it touches. */
  lemma SomeRoomSettles(o: GenerateOptions, rolled: seq<Room>, placed: seq<Room>)
    requires rolled != [] && SizesFit(o, rolled) && AllSettled(o, rolled, placed)
    ensures o.maxRoomSize <= o.width - 2 && o.maxRoomSize <= o.height - 2 ==> placed != []
  {
    assert Settled(o, rolled[0], placed);
  }

  lemma LayoutIs(w: int, h: int, placed: seq<Room>, bends: seq<bool>)
    requires w > 0 && h > 0 && |bends| == |placed| && Separated(w, h, placed)
    ensures IsLayout(w, h, Layout(w, h, placed, bends))
  {
  }

  lemma SameSolidRock(v: GridView)
    requires v.Shaped() && forall p :: p in v.cells ==> v.cells[p] == WALL
    ensures v == SolidRock(v.width, v.height)
  {
    assert forall p :: p in v.cells <==> p in Cells(v.width, v.height);
  }
}
