/** What every growth step keeps, for every choice it can make. */
module DungeonInvariant {
  import opened Paths
  import opened RowMajor
  import opened DungeonModel
  import opened DungeonGrowth
  import opened DungeonDigging

  // ----- Features

  ghost predicate FeaturesPlaced(l: LevelView) {
    && (forall i :: 0 <= i < |l.features| ==>
          l.features[i].kind.IsValid() && l.At(l.features[i].At()).TileFloor?)
    && (forall i, j :: 0 <= i < j < |l.features| ==> l.features[i].At() != l.features[j].At())
  }

  /** The features after extend those before, the new ones on freshly dug floor. */
  ghost predicate FeaturesGrow(before: LevelView, after: LevelView) {
    var n := |before.features|;
    && n <= |after.features| && after.features[..n] == before.features
    && (forall i :: n <= i < |after.features| ==>
          && after.features[i].kind.IsValid()
          && !before.Walkable(after.features[i].At())
          && after.At(after.features[i].At()).TileFloor?)
    && (forall i, j :: n <= i < j < |after.features| ==> after.features[i].At() != after.features[j].At())
  }

  lemma GrowthKeepsFeatures(before: LevelView, after: LevelView)
    requires Dug(before, after) && FeaturesGrow(before, after) && FeaturesPlaced(before)
    ensures FeaturesPlaced(after)
  {
    var n := |before.features|;
    forall i | 0 <= i < n ensures after.features[i] == before.features[i] {
      assert after.features[..n][i] == before.features[i];
    }
  }

  // ----- Stairs

  ghost predicate HasStair(l: LevelView, dir: StairDir, to: int) {
    exists k :: 0 <= k < |l.stairs| && l.stairs[k].dir == dir && l.stairs[k].toLevel == to
  }

  function StairTile(d: StairDir): TileType { if d.StairUp? then TileStairsUp else TileStairsDown }

  /** Stair records and stair tiles of a level match one to one. */
  ghost predicate StairsMatchTiles(l: LevelView) {
    && (forall k :: 0 <= k < |l.stairs| ==> l.At(l.stairs[k].At()) == StairTile(l.stairs[k].dir))
    && (forall j, k :: 0 <= j < k < |l.stairs| ==> l.stairs[j].At() != l.stairs[k].At())
    && (forall p :: p in l.tiles && (l.tiles[p].TileStairsUp? || l.tiles[p].TileStairsDown?) ==>
          exists k :: 0 <= k < |l.stairs| && l.stairs[k].At() == p)
  }

  /** Level 0 is the root; every other level starts with its one stair up, to an
      earlier level one less deep. */
  ghost predicate UpStairOk(s: State, i: int)
    requires 0 <= i < |s.levels|
  {
    var st := s.levels[i].stairs;
    if i == 0 then s.levels[0].depth == 0 && forall k :: 0 <= k < |st| ==> st[k].dir.StairDown?
    else
      && |st| >= 1 && st[0].dir.StairUp? && 0 <= st[0].toLevel < i
      && s.levels[i].depth == s.levels[st[0].toLevel].depth + 1
      && HasStair(s.levels[st[0].toLevel], StairDown, i)
      && forall k :: 1 <= k < |st| ==> st[k].dir.StairDown?
  }

  ghost predicate DownStairsOk(s: State, i: int)
    requires 0 <= i < |s.levels|
  {
    var st := s.levels[i].stairs;
    && (forall k :: 0 <= k < |st| && st[k].dir.StairDown? ==>
          && i < st[k].toLevel < |s.levels|
          && |s.levels[st[k].toLevel].stairs| >= 1
          && s.levels[st[k].toLevel].stairs[0].toLevel == i)
    && (forall j, k :: 0 <= j < k < |st| && st[j].dir.StairDown? && st[k].dir.StairDown? ==>
          st[j].toLevel != st[k].toLevel)
  }

  /** Where a party first stands on level i. */
  function Arrival(s: State, i: int): Pos
    requires 0 <= i < |s.levels|
  {
    if i == 0 || s.levels[i].stairs == [] then s.entrance else s.levels[i].stairs[0].At()
  }

  // ----- The invariant

  ghost predicate RingIsRock(l: LevelView) {
    forall p :: p in l.tiles && (p.x == 0 || p.y == 0 || p.x == l.width - 1 || p.y == l.height - 1) ==> l.tiles[p].TileRock?
  }

  predicate Roomy(o: Options) { o.levelWidth >= 3 && o.levelHeight >= 3 }

  predicate Bordered(o: Options) { o.levelWidth >= 5 && o.levelHeight >= 5 }

  ghost predicate LevelOk(o: Options, s: State, i: int)
    requires 0 <= i < |s.levels|
  {
    var l := s.levels[i];
    && l.width == o.levelWidth && l.height == o.levelHeight && l.Shaped()
    && Arrival(s, i) in l.Open() && Connected(l, Arrival(s, i))
    && FeaturesPlaced(l) && StairsMatchTiles(l)
    && UpStairOk(s, i) && DownStairsOk(s, i)
    && (Bordered(o) ==> RingIsRock(l))
  }

  /** An expansion point sits on a walkable cell of a level there is. */
  ghost predicate PointOk(s: State, xp: ExpansionPoint) {
    OnLevel(s, xp) && xp.At() in s.levels[xp.level].Open()
  }

  ghost predicate LevelsOk(o: Options, s: State) {
    forall i {:trigger LevelOk(o, s, i)} :: 0 <= i < |s.levels| ==> LevelOk(o, s, i)
  }

  ghost predicate FrontierOk(s: State) {
    forall j :: 0 <= j < |s.frontier| ==> PointOk(s, s.frontier[j])
  }

  ghost predicate Inv(o: Options, s: State) {
    && 1 <= |s.levels| <= o.maxLevels
    && LevelsOk(o, s) && FrontierOk(s)
    && |s.frontier| <= 3 * FRONTIER_SOFT_CAP
  }

  // ----- Landings

  lemma LandingFacts(w: int, h: int, depth: int)
    requires w >= 3 && h >= 3
    ensures var l := Landing(NewLevel(depth, w, h)); var c := Centre(w, h);
            && l.(tiles := map[]) == LevelView(depth, w, h, map[], [], [])
            && l.Shaped() && c in l.Open() && Connected(l, c)
            && (forall p :: p in l.tiles ==>
                  l.tiles[p] == if c.x - 1 <= p.x <= c.x + 1 && c.y - 1 <= p.y <= c.y + 1 then TileFloor else TileRock)
            && (w >= 5 && h >= 5 ==> RingIsRock(l))
  {
    var l := Landing(NewLevel(depth, w, h));
    var c := Centre(w, h);
    assert forall p :: p in l.tiles <==> p in Cells(w, h);
    var r := LandingRect(c);
    var clip := Rect(if r.minX < 0 then 0 else r.minX, if r.minY < 0 then 0 else r.minY,
                     if r.maxX > w - 1 then w - 1 else r.maxX, if r.maxY > h - 1 then h - 1 else r.maxY);
    forall p | p in l.Open() ensures Joined(l.Open(), c, p) {
      RectJoined(l.Open(), clip, c, p);
    }
  }

  lemma {:induction false} LandingPointsAtOk(l: LevelView, c: Pos, level: int, n: nat)
    requires n <= 4 && l.Shaped() && l.InBounds(c)
    requires forall p :: LandingRect(c).Has(p) && p in l.tiles ==> l.tiles[p].Walkable()
    ensures var points := LandingPointsAt(l.width, l.height, c, level, n);
            |points| <= n && forall j :: 0 <= j < |points| ==> points[j].level == level && points[j].At() in l.Open()
  {
    if n > 0 {
      LandingPointsAtOk(l, c, level, n - 1);
    }
  }

  lemma InitInv(o: Options)
    requires ValidOptions(o) && Roomy(o)
    ensures Inv(o, Init(o))
  {
    hide Centre, NewLevel, LandingPointsAt, StartBudget;
    LandingFacts(o.levelWidth, o.levelHeight, 0);
    LandingPointsAtOk(Landing(NewLevel(0, o.levelWidth, o.levelHeight)), Centre(o.levelWidth, o.levelHeight), 0, 4);
  }

  // ----- Steps that dig

  lemma PopInv(o: Options, s: State)
    requires Inv(o, s) && s.frontier != []
    ensures Inv(o, Pop(s)) && PointOk(Pop(s), s.frontier[0])
  {
    var t := Pop(s);
    forall i | 0 <= i < |t.levels| ensures LevelOk(o, t, i) {
      assert LevelOk(o, s, i);
      SameStairsOk(s, t, i);
    }
    forall j | 0 <= j < |t.frontier| ensures PointOk(t, t.frontier[j]) {
      assert PointOk(s, s.frontier[j + 1]);
    }
  }

  /** Two states with the same stairs and depths everywhere. */
  ghost predicate SameStairs(s: State, t: State) {
    && |s.levels| == |t.levels| && s.entrance == t.entrance
    && forall i :: 0 <= i < |s.levels| ==>
         s.levels[i].stairs == t.levels[i].stairs && s.levels[i].depth == t.levels[i].depth
  }

  lemma SameStairsOk(s: State, t: State, i: int)
    requires SameStairs(s, t) && 0 <= i < |s.levels| && UpStairOk(s, i) && DownStairsOk(s, i)
    ensures UpStairOk(t, i) && DownStairsOk(t, i) && Arrival(t, i) == Arrival(s, i)
  {
    var st := s.levels[i].stairs;
    if i > 0 {
      var k :| 0 <= k < |s.levels[st[0].toLevel].stairs| && s.levels[st[0].toLevel].stairs[k].dir.StairDown?
               && s.levels[st[0].toLevel].stairs[k].toLevel == i;
      assert t.levels[st[0].toLevel].stairs[k] == s.levels[st[0].toLevel].stairs[k];
    }
  }

  lemma DugKeepsStairTiles(before: LevelView, after: LevelView)
    requires Dug(before, after) && StairsMatchTiles(before)
    ensures StairsMatchTiles(after)
  {
  }

  /** Every point of g is one of f, or sits on an open cell of l and names level k. */
  ghost predicate Extends(f: seq<ExpansionPoint>, g: seq<ExpansionPoint>, l: LevelView, k: int) {
    forall j :: 0 <= j < |g| ==> g[j] in f || (g[j].level == k && g[j].At() in l.Open())
  }

  /** A step on level k that digs, adds features to fresh floor and extends the frontier. */
  ghost predicate GoodPatch(l: LevelView, f: seq<ExpansionPoint>, k: int, p: Patch) {
    && Dug(l, p.level) && FeaturesGrow(l, p.level)
    && Extends(f, p.frontier, p.level, k) && |p.frontier| <= 3 * FRONTIER_SOFT_CAP
  }

  /** A step that digs on one level keeps the invariant. */
  lemma DigKeepsInv(o: Options, s: State, k: int, p: Patch)
    requires Inv(o, s) && 0 <= k < |s.levels|
    requires GoodPatch(s.levels[k], s.frontier, k, p)
    ensures Inv(o, WithPatch(s, k, p))
  {
    var t := WithPatch(s, k, p);
    var l := s.levels[k];
    DugOpens(l, p.level);
    assert SameStairs(s, t);
    forall i | 0 <= i < |t.levels| ensures LevelOk(o, t, i) {
      assert LevelOk(o, s, i);
      SameStairsOk(s, t, i);
      if i == k {
        DugKeepsConnected(l, p.level, Arrival(s, k));
        GrowthKeepsFeatures(l, p.level);
        DugKeepsStairTiles(l, p.level);
      }
    }
    forall j | 0 <= j < |t.frontier| ensures PointOk(t, t.frontier[j]) {
      if p.frontier[j] in s.frontier {
        var m :| 0 <= m < |s.frontier| && s.frontier[m] == p.frontier[j];
        assert PointOk(s, s.frontier[m]);
      }
    }
  }

  // ----- What each digging operation does

  lemma {:induction false} EnqueueAllExtends(f: seq<ExpansionPoint>, w: int, h: int, l: LevelView, k: int, p: Pos, dirs: seq<Direction>)
    requires p in l.Open() && |f| <= 3 * FRONTIER_SOFT_CAP
    ensures Extends(f, EnqueueAll(f, w, h, k, p, dirs), l, k)
    ensures |EnqueueAll(f, w, h, k, p, dirs)| <= 3 * FRONTIER_SOFT_CAP
    decreases |dirs|
  {
    if dirs != [] {
      EnqueueAllExtends(Enqueue(f, w, h, k, p, dirs[0]), w, h, l, k, p, dirs[1..]);
    }
  }

  lemma {:induction false} CorridorKeepsFeatures(l: LevelView, p: Pos, dir: Direction, n: int)
    ensures Corridor(l, p, dir, n).0.features == l.features
    decreases if n < 0 then 0 else n
  {
    if n > 0 {
      CorridorKeepsFeatures(l.Set(dir.Ahead(p), TileFloor), dir.Ahead(p), dir, n - 1);
    }
  }

  lemma PassageGood(l: LevelView, f: seq<ExpansionPoint>, xp: ExpansionPoint, length: int, turn: Turn)
    requires l.Shaped() && xp.At() in l.Open() && |f| <= 3 * FRONTIER_SOFT_CAP
    ensures GoodPatch(l, f, xp.level, Passage(l, f, xp, length, turn))
  {
    CorridorDigs(l, xp.At(), xp.dir, length);
    CorridorKeepsFeatures(l, xp.At(), xp.dir, length);
    var (dug, end) := Corridor(l, xp.At(), xp.dir, length);
    EnqueueAllExtends(f, l.width, l.height, dug, xp.level, end, Heads(turn, xp.dir));
    DugSelf(l);
  }

  /** Features play no part in digging. */
  lemma DugWithFeatures(l: LevelView, m: LevelView, fs: seq<Feature>)
    requires Dug(l, m)
    ensures Dug(l, m.(features := fs))
  {
    assert m.(features := fs).Open() == m.Open();
    forall p | p in m.Open() && p !in l.Open() ensures JoinedToOld(l, m.(features := fs), p) {
      assert JoinedToOld(l, m, p);
    }
  }

  /** A room's cells were rock on the level before, and are floor after. */
  lemma RoomIsFresh(l: LevelView, xp: ExpansionPoint, w: int, h: int, off: int, door: TileType)
    requires l.Shaped() && w >= 1 && h >= 1 && OffsetFits(xp.dir, w, h, off) && Placeable(l, RoomRect(xp, w, h, off))
    ensures var m := l.Set(xp.Ahead(), door).Fill(RoomRect(xp, w, h, off), TileFloor);
            m.features == l.features
            && forall p :: RoomRect(xp, w, h, off).Has(p) ==> !l.Walkable(p) && m.At(p).TileFloor? && p in m.Open()
  {
    var r := RoomRect(xp, w, h, off);
    RoomRectShape(xp, w, h, off);
    forall p | r.Has(p) ensures !l.Walkable(p) && p in l.tiles {
      assert r.Padded().Has(p);
    }
  }

  /** New features on fresh floor, one to a cell. */
  lemma FreshFeaturesGrow(l: LevelView, m: LevelView, r: Rect, fs: seq<Feature>)
    requires forall p :: r.Has(p) ==> !l.Walkable(p) && m.At(p).TileFloor?
    requires forall i :: 0 <= i < |fs| ==> r.Has(fs[i].At()) && fs[i].kind.IsValid()
    requires forall i, j :: 0 <= i < j < |fs| ==> fs[i].At() != fs[j].At()
    ensures FeaturesGrow(l, m.(features := l.features + fs))
  {
    hide LevelView.Walkable;
    var n := |l.features|;
    var after := m.(features := l.features + fs);
    forall i | n <= i < |after.features| ensures after.features[i] == fs[i - n] {}
    assert forall p :: after.At(p) == m.At(p);
  }

  lemma VaultGood(l: LevelView, f: seq<ExpansionPoint>, xp: ExpansionPoint, w: int, h: int, off: int, extra: seq<Feature>)
    requires l.Shaped() && xp.At() in l.Open() && |f| <= 3 * FRONTIER_SOFT_CAP
    requires w >= 1 && h >= 1 && OffsetFits(xp.dir, w, h, off)
    requires Placeable(l, RoomRect(xp, w, h, off)) && VaultExtraFits(RoomRect(xp, w, h, off), extra)
    ensures GoodPatch(l, f, xp.level, Patch(Vault(l, xp, RoomRect(xp, w, h, off), extra), f))
  {
    hide Dug, Placeable, FeaturesGrow, LevelView.Walkable, LevelView.Set, LevelView.Fill, LevelView.Open, RoomRect, OffsetFits;
    var r := RoomRect(xp, w, h, off);
    var m := l.Set(xp.Ahead(), TileSecretDoor).Fill(r, TileFloor);
    var fs := [VaultChest(r)] + extra;
    RoomDigs(l, xp, w, h, off, TileSecretDoor);
    RoomRectShape(xp, w, h, off);
    RoomIsFresh(l, xp, w, h, off, TileSecretDoor);
    FreshFeaturesGrow(l, m, r, fs);
    DugWithFeatures(l, m, l.features + fs);
    assert l.features + [VaultChest(r)] + extra == l.features + fs;
  }

  lemma ShellGood(l: LevelView, xp: ExpansionPoint, w: int, h: int, off: int, fs: seq<Feature>)
    requires l.Shaped() && xp.At() in l.Open()
    requires w >= 1 && h >= 1 && OffsetFits(xp.dir, w, h, off)
    requires Placeable(l, RoomRect(xp, w, h, off)) && ScatterFits(RoomRect(xp, w, h, off), fs)
    ensures var m := ChamberShell(l, xp, RoomRect(xp, w, h, off), fs);
            && Dug(l, m) && FeaturesGrow(l, m)
            && forall p :: RoomRect(xp, w, h, off).Has(p) ==> p in m.Open()
  {
    hide Dug, Placeable, FeaturesGrow, LevelView.Walkable, LevelView.Set, LevelView.Fill, RoomRect, OffsetFits;
    var r := RoomRect(xp, w, h, off);
    var m := l.Set(xp.Ahead(), TileDoor).Fill(r, TileFloor);
    RoomDigs(l, xp, w, h, off, TileDoor);
    RoomIsFresh(l, xp, w, h, off, TileDoor);
    FreshFeaturesGrow(l, m, r, fs);
    DugWithFeatures(l, m, l.features + fs);
  }

  lemma {:induction false} PunchKeepsFeatures(l: LevelView, exits: seq<Exit>)
    ensures Punch(l, exits).features == l.features
  {
    if exits != [] {
      PunchKeepsFeatures(l, exits[..|exits| - 1]);
    }
  }

  lemma {:induction false} EnqueueExitsExtends(f: seq<ExpansionPoint>, w: int, h: int, k: int, exits: seq<Exit>, m: LevelView)
    requires |f| <= 3 * FRONTIER_SOFT_CAP
    requires forall i :: 0 <= i < |exits| ==> exits[i].At() in m.Open()
    ensures Extends(f, EnqueueExits(f, w, h, k, exits), m, k)
    ensures |EnqueueExits(f, w, h, k, exits)| <= 3 * FRONTIER_SOFT_CAP
  {
    if exits != [] {
      EnqueueExitsExtends(f, w, h, k, exits[..|exits| - 1], m);
    }
  }

  lemma ChamberGood(l: LevelView, f: seq<ExpansionPoint>, xp: ExpansionPoint, w: int, h: int, off: int,
                    fs: seq<Feature>, exits: seq<Exit>)
    requires l.Shaped() && xp.At() in l.Open() && |f| <= 3 * FRONTIER_SOFT_CAP
    requires w >= 1 && h >= 1 && OffsetFits(xp.dir, w, h, off)
    requires Placeable(l, RoomRect(xp, w, h, off)) && ScatterFits(RoomRect(xp, w, h, off), fs)
    requires ExitsFit(ChamberShell(l, xp, RoomRect(xp, w, h, off), fs), RoomRect(xp, w, h, off), xp.dir, exits)
    ensures GoodPatch(l, f, xp.level, Chamber(l, f, xp, RoomRect(xp, w, h, off), fs, exits))
  {
    var r := RoomRect(xp, w, h, off);
    var m := ChamberShell(l, xp, r, fs);
    ShellGood(l, xp, w, h, off, fs);
    PunchDigs(m, r, xp.dir, exits);
    PunchKeepsFeatures(m, exits);
    DugTrans(l, m, Punch(m, exits));
    EnqueueExitsExtends(f, l.width, l.height, xp.level, exits, Punch(m, exits));
  }
}
