/** What one growth step does, told cell by cell and point by point: which way passages go
    on, what vaults and chambers are made of, and when a step opens the cell ahead. */
module DungeonSteps {
  import opened Paths
  import opened DungeonModel
  import opened DungeonGrowth
  import opened DungeonDigging
  import opened DungeonInvariant
  import opened DungeonRuns
  import opened DungeonHistory

  // ----- Headings

  /** One for going on, zero for a right angle, minus one for going back. */
  function Onward(a: Direction, b: Direction): int { a.Dx() * b.Dx() + a.Dy() * b.Dy() }

  /** One for turning right, minus one for turning left, y growing downwards. */
  function Rightward(a: Direction, b: Direction): int { a.Dx() * b.Dy() - a.Dy() * b.Dx() }

  /** Where a passage may go on, given its heading: straight on, to one side, to one side as
      well as straight on, or to both sides. */
  predicate GoesOn(turn: Turn, dir: Direction, hs: seq<Direction>) {
    match turn
    case Straight => |hs| == 1 && Onward(dir, hs[0]) == 1
    case Bend(right) => |hs| == 1 && Rightward(dir, hs[0]) == if right then 1 else -1
    case SidePassage(right) => |hs| == 2 && Onward(dir, hs[0]) == 1 && Rightward(dir, hs[1]) == if right then 1 else -1
    case Tee => |hs| == 2 && Rightward(dir, hs[0]) == -1 && Rightward(dir, hs[1]) == 1
  }

  lemma HeadsGoOn(turn: Turn, dir: Direction)
    ensures GoesOn(turn, dir, Heads(turn, dir))
  {
  }

  /** No passage ever heads back, and one goes straight on exactly when it does not bend or
      split. */
  lemma NeverBack(turn: Turn, dir: Direction, hs: seq<Direction>)
    requires GoesOn(turn, dir, hs)
    ensures hs != [] && forall i :: 0 <= i < |hs| ==> Onward(dir, hs[i]) >= 0
    ensures (exists i :: 0 <= i < |hs| && hs[i] == dir) <==> turn.Straight? || turn.SidePassage?
  {
  }

  /** In bounds with a cell to spare on every side. */
  predicate OffTheEdge(l: LevelView, p: Pos) { 1 <= p.x < l.width - 1 && 1 <= p.y < l.height - 1 }

  /** How long a frontier of n gets when more points are added below 360. */
  function Filled(n: nat, more: nat): nat { if n + more <= 360 then n + more else if n <= 360 then 360 else n }

  /** g is f with points of level k at p added, one for each heading while there is room. */
  ghost predicate AddsPoints(f: seq<ExpansionPoint>, g: seq<ExpansionPoint>, k: int, p: Pos, hs: seq<Direction>) {
    && f <= g && |g| == Filled(|f|, |hs|)
    && forall i :: |f| <= i < |g| ==> g[i].level == k && g[i].x == p.x && g[i].y == p.y && g[i].dir == hs[i - |f|]
  }

  lemma {:induction false} EnqueueAllAdds(f: seq<ExpansionPoint>, w: int, h: int, k: int, p: Pos, dirs: seq<Direction>)
    ensures var g := EnqueueAll(f, w, h, k, p, dirs);
            if 1 <= p.x < w - 1 && 1 <= p.y < h - 1 then AddsPoints(f, g, k, p, dirs) else g == f
    decreases |dirs|
  {
    if dirs != [] {
      EnqueueAllAdds(Enqueue(f, w, h, k, p, dirs[0]), w, h, k, p, dirs[1..]);
    }
  }

  /** The points a passage leaves: none when it could not be begun or ends by the edge; else
      at its end, heading where it goes on, while the frontier is below 360. */
  lemma PassagePoints(l: LevelView, f: seq<ExpansionPoint>, xp: ExpansionPoint, length: int, turn: Turn) returns (hs: seq<Direction>)
    ensures GoesOn(turn, xp.dir, hs)
    ensures var end := Corridor(l, xp.At(), xp.dir, length).1;
            var g := Passage(l, f, xp, length, turn).frontier;
            if end != xp.At() && OffTheEdge(l, end) then AddsPoints(f, g, xp.level, end, hs) else g == f
  {
    hide Corridor, GoesOn, Heads, AddsPoints;
    hs := Heads(turn, xp.dir);
    HeadsGoOn(turn, xp.dir);
    EnqueueAllAdds(f, l.width, l.height, xp.level, Corridor(l, xp.At(), xp.dir, length).1, hs);
  }

  // ----- Landings

  /** Compass order: north, east, south, west. */
  function CompassOrder(d: Direction): nat {
    match d case North => 0 case East => 1 case South => 2 case West => 3
  }

  /** A point beside the landing's middle heading outwards, with a cell to spare beyond it. */
  predicate LandingPoint(w: int, h: int, c: Pos, level: int, xp: ExpansionPoint) {
    && xp.level == level && xp.x == c.x + xp.dir.Dx() && xp.y == c.y + xp.dir.Dy()
    && 1 <= c.x + 2 * xp.dir.Dx() < w - 1 && 1 <= c.y + 2 * xp.dir.Dy() < h - 1
  }

  lemma {:induction false} LandingPointsExactly(w: int, h: int, c: Pos, level: int, n: nat)
    requires n <= 4
    ensures forall xp :: xp in LandingPointsAt(w, h, c, level, n) <==> LandingPoint(w, h, c, level, xp) && CompassOrder(xp.dir) < n
  {
    if n > 0 {
      LandingPointsExactly(w, h, c, level, n - 1);
      var d := COMPASS[n - 1];
      var e := d.Ahead(c);
      var one := ExpansionPoint(level, e.x, e.y, d);
      forall xp: ExpansionPoint
        ensures LandingPoint(w, h, c, level, xp) && CompassOrder(xp.dir) == n - 1 <==> xp == one && CarvableIn(w, h, d.Ahead(e))
      {
        OnePointThisWay(w, h, c, level, d, xp);
        assert CompassOrder(xp.dir) == n - 1 <==> xp.dir == d;
      }
    }
  }

  lemma OnePointThisWay(w: int, h: int, c: Pos, level: int, d: Direction, xp: ExpansionPoint)
    ensures var e := d.Ahead(c);
            LandingPoint(w, h, c, level, xp) && xp.dir == d <==> xp == ExpansionPoint(level, e.x, e.y, d) && CarvableIn(w, h, d.Ahead(e))
  {
  }

  /** A landing seeds a point in each direction there is room for, and no other. */
  lemma LandingSeeds(w: int, h: int, level: int, xp: ExpansionPoint)
    ensures xp in LandingPoints(w, h, level) <==> LandingPoint(w, h, Centre(w, h), level, xp)
  {
    hide LandingPointsAt, LandingPoint, Clamped;
    LandingPointsExactly(w, h, Centre(w, h), level, 4);
  }

  // ----- Vaults

  /** A vault cell by cell: a secret door in the wall, floor within, a chest as near the
      middle as whole cells allow, and at most one shrine or statue beside it. */
  lemma VaultExactly(l: LevelView, xp: ExpansionPoint, r: Rect, extra: seq<Feature>)
    requires r.minX <= r.maxX && r.minY <= r.maxY && VaultExtraFits(r, extra)
    ensures var v := Vault(l, xp, r, extra); var n := |l.features|;
            && v.stairs == l.stairs && v.depth == l.depth && v.width == l.width && v.height == l.height && v.tiles.Keys == l.tiles.Keys
            && (forall p :: p in l.tiles ==> v.tiles[p] == if r.Has(p) then TileFloor else if p == xp.Ahead() then TileSecretDoor else l.tiles[p])
            && n + 1 <= |v.features| <= n + 2 && v.features[..n] == l.features
            && v.features[n].kind.FeatureChest? && r.Has(v.features[n].At())
            && r.minX + r.maxX - 1 <= 2 * v.features[n].x <= r.minX + r.maxX
            && r.minY + r.maxY - 1 <= 2 * v.features[n].y <= r.minY + r.maxY
            && (|v.features| == n + 2 ==>
                  && (v.features[n + 1].kind.FeatureShrine? || v.features[n + 1].kind.FeatureStatue?)
                  && r.Has(v.features[n + 1].At()) && v.features[n + 1].At() != v.features[n].At())
  {
  }

  // ----- Chambers

  /** The door the chamber's exits put at p, if any. */
  ghost predicate ExitAt(exits: seq<Exit>, p: Pos, door: TileType) {
    exists i :: 0 <= i < |exits| && exits[i].x == p.x && exits[i].y == p.y && exits[i].door == door
  }

  lemma {:induction false} PunchExactly(l: LevelView, exits: seq<Exit>, p: Pos)
    requires p in l.tiles && forall i, j :: 0 <= i < j < |exits| ==> exits[i].At() != exits[j].At()
    ensures var m := Punch(l, exits);
            && m.(tiles := l.tiles) == l && m.tiles.Keys == l.tiles.Keys
            && (if exists d :: ExitAt(exits, p, d) then ExitAt(exits, p, m.tiles[p]) else m.tiles[p] == l.tiles[p])
  {
    if exits != [] {
      var n := |exits| - 1;
      var es := exits[..n];
      PunchExactly(l, es, p);
      ExitAtLast(exits, p);
      if exits[n].At() == p {
        forall d ensures !ExitAt(es, p, d) {
          forall i | 0 <= i < n ensures es[i].At() != p {
            assert exits[i].At() != exits[n].At();
          }
        }
        assert ExitAt(exits, p, exits[n].door);
      }
    }
  }

  lemma ExitAtLast(exits: seq<Exit>, p: Pos)
    requires exits != []
    ensures var n := |exits| - 1;
            forall d :: ExitAt(exits, p, d) <==> ExitAt(exits[..n], p, d) || (exits[n].At() == p && exits[n].door == d)
  {
    var n := |exits| - 1;
    forall d ensures ExitAt(exits, p, d) <==> ExitAt(exits[..n], p, d) || (exits[n].At() == p && exits[n].door == d) {
      if ExitAt(exits[..n], p, d) {
        var i :| 0 <= i < n && exits[..n][i].At() == p && exits[..n][i].door == d;
        assert exits[i] == exits[..n][i];
      }
      if ExitAt(exits, p, d) {
        var i :| 0 <= i < |exits| && exits[i].At() == p && exits[i].door == d;
        assert i < n ==> exits[..n][i] == exits[i];
      }
    }
  }

  /** Doorways on different walls are different cells. */
  lemma ExitsApart(l: LevelView, r: Rect, entry: Direction, exits: seq<Exit>)
    requires ExitsFit(l, r, entry, exits) && r.minX <= r.maxX && r.minY <= r.maxY
    ensures forall i, j :: 0 <= i < j < |exits| ==> exits[i].At() != exits[j].At()
  {
    hide DoorwayFits, Punch;
  }

  /** Where a doorway can be: rock off the edge of the map, with rock of the map behind it. */
  lemma DoorwayFitsExactly(l: LevelView, p: Pos, dir: Direction)
    requires l.Shaped()
    ensures DoorwayFits(l, p, dir) <==>
              && 1 <= p.x < l.width - 1 && 1 <= p.y < l.height - 1 && l.tiles[p].TileRock?
              && NextTo(p, dir) in l.tiles && l.tiles[NextTo(p, dir)].TileRock?
  {
    AheadIsNext(p, dir);
  }

  /** The cell lies against the room's side facing this way. */
  predicate Against(r: Rect, p: Pos, dir: Direction) {
    match dir
    case North => p.y == r.minY - 1 && r.minX <= p.x <= r.maxX
    case South => p.y == r.maxY + 1 && r.minX <= p.x <= r.maxX
    case West => p.x == r.minX - 1 && r.minY <= p.y <= r.maxY
    case East => p.x == r.maxX + 1 && r.minY <= p.y <= r.maxY
  }

  lemma {:induction false} PunchOnlyOpens(l: LevelView, exits: seq<Exit>, p: Pos)
    requires p in l.tiles && forall i :: 0 <= i < |exits| ==> !exits[i].door.TileRock?
    ensures Punch(l, exits).At(p).TileRock? ==> l.tiles[p].TileRock?
  {
    if exits != [] {
      PunchOnlyOpens(l, exits[..|exits| - 1], p);
      PunchKeepsRest(l, exits[..|exits| - 1]);
    }
  }

  /** A chamber's exits: at most three, each through a different side and none through the
      side it was entered by, from rock to rock, the first not hidden; and without any, every
      such side has a place along it that takes no doorway. */
  lemma ExitsExactly(l: LevelView, r: Rect, entry: Direction, exits: seq<Exit>)
    requires l.Shaped() && ExitsFit(l, r, entry, exits) && ExitsDue(l, r, entry, exits)
    ensures |exits| <= 3 && (forall i, j :: 0 <= i < j < |exits| ==> exits[i].dir != exits[j].dir)
    ensures forall i :: 0 <= i < |exits| ==>
              var e := exits[i]; var p := Pos(e.x, e.y);
              && Onward(entry, e.dir) >= 0 && Against(r, p, e.dir) && OffTheEdge(l, p)
              && l.At(p).TileRock? && l.At(NextTo(p, e.dir)).TileRock? && NextTo(p, e.dir) in l.tiles
              && (e.door.TileDoor? || (i > 0 && e.door.TileSecretDoor?))
    ensures exits == [] ==> forall dir :: Onward(entry, dir) >= 0 ==>
              exists p :: Against(r, p, dir)
                && !(OffTheEdge(l, p) && l.At(p).TileRock? && NextTo(p, dir) in l.tiles && l.At(NextTo(p, dir)).TileRock?)
  {
    hide Punch;
    forall i | 0 <= i < |exits|
      ensures l.At(exits[i].At()).TileRock? && NextTo(exits[i].At(), exits[i].dir) in l.tiles
      ensures l.At(NextTo(exits[i].At(), exits[i].dir)).TileRock? && OffTheEdge(l, exits[i].At())
    {
      var e := exits[i];
      PunchKeepsRest(l, exits[..i]);
      AheadIsNext(e.At(), e.dir);
      PunchOnlyOpens(l, exits[..i], e.At());
      PunchOnlyOpens(l, exits[..i], NextTo(e.At(), e.dir));
    }
    if exits == [] {
      forall dir | Onward(entry, dir) >= 0
        ensures exists p :: Against(r, p, dir)
                  && !(OffTheEdge(l, p) && l.At(p).TileRock? && NextTo(p, dir) in l.tiles && l.At(NextTo(p, dir)).TileRock?)
      {
        assert dir != entry.Around() && WallBlocked(l, r, dir);
        var p :| OnWall(r, p, dir) && !DoorwayFits(l, p, dir);
        AheadIsNext(p, dir);
        assert Against(r, p, dir);
      }
    }
  }

  /** The points a chamber leaves: one in each doorway, heading outwards, while the frontier
      is below 360. */
  ghost predicate AddsExits(f: seq<ExpansionPoint>, g: seq<ExpansionPoint>, k: int, exits: seq<Exit>) {
    && f <= g && |g| == Filled(|f|, |exits|)
    && forall i :: |f| <= i < |g| ==>
         var e := exits[i - |f|]; g[i].level == k && g[i].x == e.x && g[i].y == e.y && g[i].dir == e.dir
  }

  lemma {:induction false} EnqueueExitsAdds(f: seq<ExpansionPoint>, w: int, h: int, k: int, exits: seq<Exit>)
    requires forall i :: 0 <= i < |exits| ==> CarvableIn(w, h, exits[i].At())
    ensures AddsExits(f, EnqueueExits(f, w, h, k, exits), k, exits)
  {
    if exits != [] {
      EnqueueExitsAdds(f, w, h, k, exits[..|exits| - 1]);
    }
  }

  /** A chamber cell by cell: a door in the wall, floor within, doors in its exits; and a
      point in each exit. */
  lemma ChamberExactly(l: LevelView, f: seq<ExpansionPoint>, xp: ExpansionPoint, r: Rect, fs: seq<Feature>, exits: seq<Exit>)
    requires r.minX <= r.maxX && r.minY <= r.maxY && ExitsFit(ChamberShell(l, xp, r, fs), r, xp.dir, exits)
    ensures var c := Chamber(l, f, xp, r, fs, exits);
            && c.level.features == l.features + fs && c.level.stairs == l.stairs && c.level.tiles.Keys == l.tiles.Keys
            && (forall p :: p in l.tiles ==>
                  if exists d :: ExitAt(exits, p, d) then ExitAt(exits, p, c.level.tiles[p])
                  else c.level.tiles[p] == if r.Has(p) then TileFloor else if p == xp.Ahead() then TileDoor else l.tiles[p])
            && AddsExits(f, c.frontier, xp.level, exits)
  {
    hide AddsExits, ExitAt;
    var shell := ChamberShell(l, xp, r, fs);
    ExitsApart(shell, r, xp.dir, exits);
    assert shell.tiles.Keys == l.tiles.Keys;
    forall p | p in l.tiles
      ensures var m := Punch(shell, exits);
              && m.(tiles := shell.tiles) == shell && m.tiles.Keys == shell.tiles.Keys
              && (if exists d :: ExitAt(exits, p, d) then ExitAt(exits, p, m.tiles[p]) else m.tiles[p] == shell.tiles[p])
    {
      PunchExactly(shell, exits, p);
    }
    PunchKeepsRest(shell, exits);
    ExitsCarvable(shell, r, xp.dir, exits);
    EnqueueExitsAdds(f, l.width, l.height, xp.level, exits);
  }

  lemma {:induction false} PunchKeepsRest(l: LevelView, exits: seq<Exit>)
    ensures Punch(l, exits).(tiles := l.tiles) == l && Punch(l, exits).tiles.Keys == l.tiles.Keys
  {
    if exits != [] {
      PunchKeepsRest(l, exits[..|exits| - 1]);
    }
  }

  lemma ExitsCarvable(l: LevelView, r: Rect, entry: Direction, exits: seq<Exit>)
    requires ExitsFit(l, r, entry, exits)
    ensures forall i :: 0 <= i < |exits| ==> CarvableIn(l.width, l.height, exits[i].At())
  {
    forall i | 0 <= i < |exits| ensures CarvableIn(l.width, l.height, exits[i].At()) {
      PunchKeepsRest(l, exits[..i]);
    }
  }

  // ----- One step

  /** The cell next to p in this direction, y growing downwards. */
  function NextTo(p: Pos, d: Direction): Pos {
    match d
    case North => Pos(p.x, p.y - 1)
    case East => Pos(p.x + 1, p.y)
    case South => Pos(p.x, p.y + 1)
    case West => Pos(p.x - 1, p.y)
  }

  lemma AheadIsNext(p: Pos, d: Direction)
    ensures d.Ahead(p) == NextTo(p, d)
  {
  }

  lemma CorridorOpensAhead(l: LevelView, p: Pos, dir: Direction, n: int)
    requires l.Shaped() && n >= 1 && l.Carvable(dir.Ahead(p)) && !l.Walkable(dir.Ahead(p))
    ensures Corridor(l, p, dir, n).0.At(dir.Ahead(p)).TileFloor? && Corridor(l, p, dir, n).1 != p
  {
    hide LevelView.Set;
    var k := CorridorShape(l, p, dir, n);
    FirstOnLine(p, dir, k);
  }

  lemma FirstOnLine(p: Pos, dir: Direction, k: int)
    ensures OnLine(p, dir, k, dir.Ahead(p)) <==> k >= 1
    ensures k >= 1 ==> Along(p, dir, k) != p
    ensures Along(p, dir, 1) == dir.Ahead(p)
  {
  }

  /** A chamber opens the cell ahead. */
  lemma ChamberOpensAhead(l: LevelView, f: seq<ExpansionPoint>, xp: ExpansionPoint, w: int, h: int, off: int, fs: seq<Feature>, exits: seq<Exit>)
    requires l.Shaped() && w >= 1 && h >= 1 && OffsetFits(xp.dir, w, h, off) && Placeable(l, RoomRect(xp, w, h, off))
    requires ExitsFit(ChamberShell(l, xp, RoomRect(xp, w, h, off), fs), RoomRect(xp, w, h, off), xp.dir, exits)
    ensures Chamber(l, f, xp, RoomRect(xp, w, h, off), fs, exits).level.At(xp.Ahead()).TileDoor?
  {
    hide Placeable, ExitsFit, ChamberShell, Chamber, OffsetFits, RoomRect;
    var r := RoomRect(xp, w, h, off);
    RoomRectShape(xp, w, h, off);
    RoomIsOnMap(l, r, xp.Ahead());
    ChamberExactly(l, f, xp, r, fs, exits);
    NoExitAtEntry(ChamberShell(l, xp, r, fs), r, xp, exits);
  }

  lemma RoomIsOnMap(l: LevelView, r: Rect, p: Pos)
    requires l.Shaped() && Placeable(l, r) && r.Padded().Has(p)
    ensures p in l.tiles
  {
  }

  lemma NoExitAtEntry(shell: LevelView, r: Rect, xp: ExpansionPoint, exits: seq<Exit>)
    requires ExitsFit(shell, r, xp.dir, exits) && OnWall(r, xp.Ahead(), xp.dir.Around()) && r.minX <= r.maxX && r.minY <= r.maxY
    ensures forall d :: !ExitAt(exits, xp.Ahead(), d)
  {
    hide DoorwayFits, Punch;
    var p := xp.Ahead();
    forall i | 0 <= i < |exits| ensures exits[i].x != p.x || exits[i].y != p.y {
      assert OnWall(r, exits[i].At(), exits[i].dir);
    }
  }

  /** The step that grows xp by choice c: what becomes of the cell ahead, of the levels, and
      of the rest. */
  lemma StepExactly(o: Options, s: State, c: Choice, t: State)
    requires Sound(o, s) && Step(o, s, c, t)
    ensures var xp, ahead := s.frontier[0], NextTo(Pos(s.frontier[0].x, s.frontier[0].y), s.frontier[0].dir);
            var l, m := s.levels[xp.level], t.levels[xp.level];
            var carvable := OffTheEdge(l, ahead);
            && (c.Spent? <==> ahead in l.tiles && !l.tiles[ahead].TileRock?)
            && (c.Spent? || c.DeadEnd? ==> t.levels == s.levels && t.frontier == s.frontier[1..])
            && (c.GrowPassage? && carvable ==> m.At(ahead).TileFloor?)
            && (c.GrowChamber? && carvable ==> m.At(ahead).TileFloor? || m.At(ahead).TileDoor?)
            && (c.GrowVault? ==> t.frontier == s.frontier[1..] && (m == l || m.At(ahead).TileSecretDoor?))
            && (c.GrowStairs? ==>
                  if carvable && |s.levels| < o.maxLevels then m.At(ahead).TileStairsDown? && |t.levels| == |s.levels| + 1
                  else t.levels == s.levels && t.frontier == s.frontier[1..])
            && (!c.GrowStairs? ==> |t.levels| == |s.levels|)
  {
    hide Corridor, Passage, Chamber, Vault, Placeable, ExitsFit, ExitsDue, ScatterFits, VaultExtraFits, RoomRect, OffsetFits, Inv;
    hide EnqueueAll, LevelView.Set, Child, LandingPoints;
    var xp := s.frontier[0];
    var l := s.levels[xp.level];
    AheadIsNext(xp.At(), xp.dir);
    StepStandsOnMap(o, s);
    match c
    case Spent =>
    case DeadEnd =>
    case GrowPassage(length, turn) =>
      PassageOpensAhead(l, Pop(s).frontier, xp, length, turn);
    case GrowVault(w, h, off, extra) =>
      if Placeable(l, RoomRect(xp, w, h, off)) {
        VaultOpensAhead(l, xp, w, h, off, extra);
      }
    case GrowChamber(w, h, off, fs, exits, length, turn) =>
      if Placeable(l, RoomRect(xp, w, h, off)) {
        ChamberSideFits(o.roomSize, w, h);
        ChamberOpensAhead(l, Pop(s).frontier, xp, w, h, off, fs, exits);
      } else {
        PassageOpensAhead(l, Pop(s).frontier, xp, length, turn);
      }
    case GrowStairs =>
      StairOpensAhead(l, xp.Ahead(), |s.levels|);
  }

  lemma ChamberSideFits(size: RoomSize, w: int, h: int)
    requires SideFits(size, w) && SideFits(size, h)
    ensures w >= 1 && h >= 1
  {
  }

  /** The point a step grows sits on an open cell of its level. */
  lemma StepStandsOnMap(o: Options, s: State)
    requires Sound(o, s) && s.frontier != []
    ensures var xp := s.frontier[0]; OnLevel(s, xp) && s.levels[xp.level].Shaped() && s.levels[xp.level].InBounds(xp.At())
  {
    assert PointOk(s, s.frontier[0]);
    assert LevelOk(o, s, s.frontier[0].level);
  }

  lemma PassageOpensAhead(l: LevelView, f: seq<ExpansionPoint>, xp: ExpansionPoint, length: int, turn: Turn)
    requires l.Shaped() && LengthFits(length) && !l.Walkable(xp.Ahead())
    ensures l.Carvable(xp.Ahead()) ==> Passage(l, f, xp, length, turn).level.At(xp.Ahead()).TileFloor?
  {
    hide Corridor;
    if l.Carvable(xp.Ahead()) {
      CorridorOpensAhead(l, xp.At(), xp.dir, length);
    }
  }

  lemma VaultOpensAhead(l: LevelView, xp: ExpansionPoint, w: int, h: int, off: int, extra: seq<Feature>)
    requires l.Shaped() && w >= 1 && h >= 1 && OffsetFits(xp.dir, w, h, off) && Placeable(l, RoomRect(xp, w, h, off))
    requires VaultExtraFits(RoomRect(xp, w, h, off), extra)
    ensures Vault(l, xp, RoomRect(xp, w, h, off), extra).At(xp.Ahead()).TileSecretDoor?
  {
    hide Placeable, OffsetFits, RoomRect, Vault;
    RoomRectShape(xp, w, h, off);
    RoomIsOnMap(l, RoomRect(xp, w, h, off), xp.Ahead());
    VaultExactly(l, xp, RoomRect(xp, w, h, off), extra);
  }

  lemma StairOpensAhead(l: LevelView, p: Pos, to: int)
    requires l.Shaped()
    ensures l.Carvable(p) ==> WithStair(l, p, to).At(p).TileStairsDown?
  {
  }

  // ----- The frontier is a queue

  lemma {:induction false} EnqueueAllKeeps(f: seq<ExpansionPoint>, w: int, h: int, k: int, p: Pos, dirs: seq<Direction>)
    ensures f <= EnqueueAll(f, w, h, k, p, dirs)
    decreases |dirs|
  {
    if dirs != [] {
      EnqueueAllKeeps(Enqueue(f, w, h, k, p, dirs[0]), w, h, k, p, dirs[1..]);
    }
  }

  lemma {:induction false} EnqueueExitsKeeps(f: seq<ExpansionPoint>, w: int, h: int, k: int, exits: seq<Exit>)
    ensures f <= EnqueueExits(f, w, h, k, exits)
  {
    if exits != [] {
      EnqueueExitsKeeps(f, w, h, k, exits[..|exits| - 1]);
    }
  }

  /** Points are grown in the order they came: a step takes the first and adds behind the rest. */
  lemma PointsWaitTheirTurn(o: Options, s: State, c: Choice, t: State)
    requires Step(o, s, c, t)
    ensures s.frontier[1..] <= t.frontier
  {
    hide Corridor, EnqueueAll, EnqueueExits, Punch, ChamberShell, Vault, Placeable, Allowed, Child, LandingPoints;
    var xp := s.frontier[0];
    var l, f := s.levels[xp.level], s.frontier[1..];
    match c
    case GrowPassage(length, turn) =>
      EnqueueAllKeeps(f, l.width, l.height, xp.level, Corridor(l, xp.At(), xp.dir, length).1, Heads(turn, xp.dir));
    case GrowChamber(w, h, off, fs, exits, length, turn) =>
      EnqueueAllKeeps(f, l.width, l.height, xp.level, Corridor(l, xp.At(), xp.dir, length).1, Heads(turn, xp.dir));
      EnqueueExitsKeeps(f, l.width, l.height, xp.level, exits);
    case _ =>
  }

  // ----- How long a run is

  /** The budget asked for, or without one a step for every 25 cells and at least 8. */
  lemma StartBudgetExactly(o: Options)
    requires ValidOptions(o)
    ensures if o.growthBudget > 0 then StartBudget(o) == o.growthBudget
            else StartBudget(o) >= 8 && 25 * StartBudget(o) <= (if o.levelWidth * o.levelHeight < 200 then 200 else o.levelWidth * o.levelHeight)
                 && o.levelWidth * o.levelHeight < 25 * (StartBudget(o) + 1)
  {
    hide ValidOptions;
  }

  /** A run ends only when nothing is left to grow or the budget is spent, and a budget of
      steps asked for is never overrun. */
  lemma RunsToTheEnd(o: Options, states: seq<State>, choices: seq<Choice>)
    requires IsRun(o, states, choices)
    ensures o.growthBudget > 0 ==> |choices| <= o.growthBudget
    ensures o.growthBudget <= 0 ==> |choices| <= 8 || 25 * |choices| <= o.levelWidth * o.levelHeight
    ensures !Running(states[|choices|]) ==>
              states[|choices|].frontier == [] || (if o.growthBudget > 0 then |choices| == o.growthBudget
                                                   else |choices| >= 8 && o.levelWidth * o.levelHeight < 25 * (|choices| + 1))
  {
    hide Step, Init;
    GrowthBounds(o, states, choices, |choices|);
    StartBudgetExactly(o);
  }

  // ----- Where parties arrive

  lemma CentreIsMiddle(w: int, h: int)
    requires w >= 5 && h >= 5
    ensures Centre(w, h) == Pos(w / 2, h / 2)
  {
  }

  ghost predicate Centred(o: Options, s: State) {
    && s.entrance == Centre(o.levelWidth, o.levelHeight)
    && forall i :: 0 < i < |s.levels| ==> |s.levels[i].stairs| > 0 && s.levels[i].stairs[0].At() == s.entrance
  }

  lemma StepKeepsCentred(o: Options, s: State, c: Choice, t: State)
    requires Sound(o, s) && Centred(o, s) && Step(o, s, c, t)
    ensures Centred(o, t)
  {
    hide Inv, GoodPatch, LandingPoints, Clamped, Allowed;
    PopInv(o, s);
    var xp := s.frontier[0];
    if c.GrowStairs? {
      DescendKeepsCentred(o, Pop(s), xp);
    } else {
      var p := GrowPatches(o, Pop(s), xp, c);
      PatchKeepsStairs(s.levels[xp.level], Pop(s).frontier, xp.level, p);
    }
  }

  lemma PatchKeepsStairs(l: LevelView, f: seq<ExpansionPoint>, k: int, p: Patch)
    requires GoodPatch(l, f, k, p)
    ensures p.level.stairs == l.stairs
  {
  }

  lemma DescendKeepsCentred(o: Options, s: State, xp: ExpansionPoint)
    requires OnLevel(s, xp) && Centred(o, s)
    ensures Centred(o, Descend(o, s, xp))
  {
    hide LandingPoints, Clamped, NewLevel, Landing, LevelView.Set;
  }

  lemma {:induction false} TraceCentred(o: Options, states: seq<State>, choices: seq<Choice>, i: nat)
    requires IsRun(o, states, choices) && i <= |choices|
    ensures Centred(o, states[i])
  {
    hide Sound, Step, Clamped;
    InitSound(o);
    if i > 0 {
      TraceCentred(o, states, choices, i - 1);
      TraceSound(o, states, choices, i - 1);
      StepKeepsCentred(o, states[i - 1], choices[i - 1], states[i]);
    }
  }

  /** On levels at least 5 by 5 a party enters, and arrives on every deeper level, in the
      middle. */
  lemma ArrivalsAreInTheMiddle(o: Options, s: State)
    requires Reachable(o, s) && Bordered(o)
    ensures s.entrance == Pos(o.levelWidth / 2, o.levelHeight / 2)
    ensures forall i :: 0 < i < |s.levels| ==> |s.levels[i].stairs| > 0 && s.levels[i].stairs[0].At() == s.entrance
  {
    hide Step, Clamped;
    var states: seq<State>, choices: seq<Choice> :| IsRun(o, states, choices) && states[|choices|] == s;
    TraceCentred(o, states, choices, |choices|);
    CentreIsMiddle(o.levelWidth, o.levelHeight);
  }
}
