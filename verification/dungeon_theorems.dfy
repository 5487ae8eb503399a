/** The promises the dungeon package makes, for every run and every level size. */
module DungeonTheorems {
  import opened Paths
  import opened RowMajor
  import opened DungeonModel
  import opened DungeonGrowth
  import opened DungeonDigging
  import opened DungeonInvariant
  import opened DungeonRuns

  // ----- Connectivity of one level

  predicate Sliver(o: Options) { o.levelWidth == 1 || o.levelHeight == 1 }

  lemma InitTiles(o: Options, p: Pos)
    requires ValidOptions(o)
    ensures var l := Init(o).levels[0];
            && (p in l.tiles <==> 0 <= p.x < o.levelWidth && 0 <= p.y < o.levelHeight)
            && (p in l.Open() <==> p in l.tiles && LandingRect(Centre(o.levelWidth, o.levelHeight)).Has(p))
  {
    var l := NewLevel(0, o.levelWidth, o.levelHeight);
    assert p in Cells(o.levelWidth, o.levelHeight) <==> 0 <= p.x < o.levelWidth && 0 <= p.y < o.levelHeight;
    assert p in l.tiles <==> p in Cells(o.levelWidth, o.levelHeight);
    assert Landing(l).tiles.Keys == l.tiles.Keys;
  }

  /** On a level two cells wide or high the centre is off the map while a corner of
      the landing is not. */
  lemma CutOff(o: Options) returns (p: Pos)
    requires ValidOptions(o) && !Roomy(o) && !Sliver(o)
    ensures p in Init(o).levels[0].Open()
    ensures Init(o).entrance !in Init(o).levels[0].Open()
  {
    hide LandingPoints, Landing, NewLevel, StartBudget, LevelView.Open;
    var c := Centre(o.levelWidth, o.levelHeight);
    p := Pos(if o.levelWidth == 2 then 1 else c.x, if o.levelHeight == 2 then 1 else c.y);
    InitTiles(o, p);
    InitTiles(o, c);
  }

  ghost predicate EveryLevelConnected(s: State) {
    forall i :: 0 <= i < |s.levels| ==> Connected(s.levels[i], Arrival(s, i))
  }

  /** The connectivity guarantee holds on exactly these level sizes: both sides at
      least 3, or so thin that nothing is ever carved. */
  lemma ConnectedExactly(o: Options, s: State)
    requires Reachable(o, s)
    ensures EveryLevelConnected(s) <==> Roomy(o) || Sliver(o)
  {
    ReachableSound(o, s);
    if Roomy(o) {
      forall i | 0 <= i < |s.levels| ensures Connected(s.levels[i], Arrival(s, i)) {
        assert LevelOk(o, s, i);
      }
    } else if Sliver(o) {
      forall p ensures p !in s.levels[0].Open() {
        InitTiles(o, p);
      }
    } else {
      var p := CutOff(o);
      JoinedEnds(s.levels[0].Open(), s.entrance, p);
      assert !Connected(s.levels[0], Arrival(s, 0));
    }
  }

  // ----- Reaching the whole dungeon

  datatype Site = Site(level: int, pos: Pos)

  ghost predicate IsSite(s: State, a: Site) {
    0 <= a.level < |s.levels| && a.pos in s.levels[a.level].Open()
  }

  /** A stair down at a whose landing, the stair up at b, leads back. */
  ghost predicate Stairway(s: State, a: Site, b: Site)
    requires IsSite(s, a) && IsSite(s, b)
  {
    && Stair(a.pos.x, a.pos.y, StairDown, b.level) in s.levels[a.level].stairs
    && Stair(b.pos.x, b.pos.y, StairUp, a.level) in s.levels[b.level].stairs
  }

  ghost predicate Move(s: State, a: Site, b: Site) {
    && IsSite(s, a) && IsSite(s, b)
    && ((a.level == b.level && Beside(a.pos, b.pos)) || Stairway(s, a, b) || Stairway(s, b, a))
  }

  ghost predicate IsWalk(s: State, ws: seq<Site>) {
    && (forall i :: 0 <= i < |ws| ==> IsSite(s, ws[i]))
    && (forall i :: 0 < i < |ws| ==> Move(s, ws[i - 1], ws[i]))
  }

  ghost predicate WalkFromEntrance(s: State, b: Site, ws: seq<Site>) {
    |ws| > 0 && ws[0] == Site(0, s.entrance) && ws[|ws| - 1] == b && IsWalk(s, ws)
  }

  /** A party entering the dungeon can walk to b. */
  ghost predicate Explorable(s: State, b: Site) {
    exists ws :: WalkFromEntrance(s, b, ws)
  }

  lemma ExplorableStep(s: State, a: Site, b: Site)
    requires Explorable(s, a) && Move(s, a, b)
    ensures Explorable(s, b)
  {
    var ws :| WalkFromEntrance(s, a, ws);
    assert WalkFromEntrance(s, b, ws + [b]);
  }

  lemma ExplorableFromEntrance(s: State, b: Site)
    ensures Explorable(s, b) ==> IsSite(s, Site(0, s.entrance))
  {
    forall ws | WalkFromEntrance(s, b, ws) ensures IsSite(s, Site(0, s.entrance)) {
      assert IsSite(s, ws[0]);
    }
  }

  lemma {:induction false} ExplorableAlong(s: State, i: int, ps: seq<Pos>)
    requires 0 <= i < |s.levels| && |ps| > 0 && IsPath(s.levels[i].Open(), ps)
    requires Explorable(s, Site(i, ps[0]))
    ensures Explorable(s, Site(i, ps[|ps| - 1]))
  {
    if |ps| > 1 {
      var qs := ps[..|ps| - 1];
      ExplorableAlong(s, i, qs);
      ExplorableStep(s, Site(i, qs[|qs| - 1]), Site(i, ps[|ps| - 1]));
    }
  }

  lemma LevelExplorable(o: Options, s: State, i: int, p: Pos)
    requires 0 <= i < |s.levels| && LevelOk(o, s, i) && p in s.levels[i].Open()
    requires Explorable(s, Site(i, Arrival(s, i)))
    ensures Explorable(s, Site(i, p))
  {
    var ps :| PathBetween(s.levels[i].Open(), Arrival(s, i), p, ps);
    ExplorableAlong(s, i, ps);
  }

  lemma {:induction false} ArrivalExplorable(o: Options, s: State, i: int)
    requires Inv(o, s) && 0 <= i < |s.levels|
    ensures Explorable(s, Site(i, Arrival(s, i)))
    decreases i
  {
    assert LevelOk(o, s, i);
    var b := Site(i, Arrival(s, i));
    if i == 0 {
      assert WalkFromEntrance(s, b, [b]);
    } else {
      var up := s.levels[i].stairs[0];
      var u := up.toLevel;
      assert LevelOk(o, s, u);
      var k :| 0 <= k < |s.levels[u].stairs| && s.levels[u].stairs[k].dir.StairDown? && s.levels[u].stairs[k].toLevel == i;
      var down := s.levels[u].stairs[k];
      var a := Site(u, down.At());
      assert down == Stair(a.pos.x, a.pos.y, StairDown, i) && up == Stair(b.pos.x, b.pos.y, StairUp, u);
      ArrivalExplorable(o, s, u);
      LevelExplorable(o, s, u, down.At());
      assert Stairway(s, a, b);
      ExplorableStep(s, a, b);
    }
  }

  ghost predicate EveryTileExplorable(s: State) {
    forall i, p :: 0 <= i < |s.levels| && p in s.levels[i].Open() ==> Explorable(s, Site(i, p))
  }

  /** Every walkable tile of every level can be reached from the entrance, on exactly
      the level sizes that keep each level connected. */
  lemma WholeDungeonExplorable(o: Options, s: State)
    requires Reachable(o, s)
    ensures EveryTileExplorable(s) <==> Roomy(o) || Sliver(o)
  {
    ReachableSound(o, s);
    if Roomy(o) {
      forall i, p | 0 <= i < |s.levels| && p in s.levels[i].Open() ensures Explorable(s, Site(i, p)) {
        assert LevelOk(o, s, i);
        ArrivalExplorable(o, s, i);
        LevelExplorable(o, s, i, p);
      }
    } else if Sliver(o) {
      forall p ensures p !in s.levels[0].Open() {
        InitTiles(o, p);
      }
    } else {
      var p := CutOff(o);
      ExplorableFromEntrance(s, Site(0, p));
    }
  }

  // ----- Stairs

  /** Stair k of level i and stair j of the level it leads to name each other. */
  ghost predicate Reciprocal(s: State, i: int, k: int, j: int)
    requires 0 <= i < |s.levels| && 0 <= k < |s.levels[i].stairs|
  {
    var a := s.levels[i].stairs[k];
    && 0 <= a.toLevel < |s.levels| && 0 <= j < |s.levels[a.toLevel].stairs|
    && var b := s.levels[a.toLevel].stairs[j]; b.toLevel == i && b.dir != a.dir
  }

  ghost predicate IsUp(s: State, i: int, k: int)
    requires 0 <= i < |s.levels|
  {
    0 <= k < |s.levels[i].stairs| && s.levels[i].stairs[k].dir.StairUp?
  }

  /** Stair k of level i has exactly one stair back. */
  ghost predicate OneStairBack(s: State, i: int, k: int)
    requires 0 <= i < |s.levels| && 0 <= k < |s.levels[i].stairs|
  {
    exists j :: Reciprocal(s, i, k, j) && forall m :: Reciprocal(s, i, k, m) ==> m == j
  }

  /** Level i has exactly one stair up, to an earlier level one less deep; the
      entrance level has none. */
  ghost predicate OneStairUp(s: State, i: int)
    requires 0 <= i < |s.levels|
  {
    if i == 0 then s.levels[0].depth == 0 && forall k :: !IsUp(s, 0, k)
    else exists k :: IsUp(s, i, k) && (forall m :: IsUp(s, i, m) ==> m == k)
           && 0 <= s.levels[i].stairs[k].toLevel < i
           && s.levels[i].depth == s.levels[s.levels[i].stairs[k].toLevel].depth + 1
  }

  ghost predicate EveryStairHasOneBack(s: State, i: int)
    requires 0 <= i < |s.levels|
  {
    forall k :: 0 <= k < |s.levels[i].stairs| ==> OneStairBack(s, i, k)
  }

  lemma StairsOfLevel(s: State, i: int)
    requires forall i :: 0 <= i < |s.levels| ==> UpStairOk(s, i) && DownStairsOk(s, i)
    requires 0 <= i < |s.levels|
    ensures OneStairUp(s, i) && EveryStairHasOneBack(s, i)
  {
    assert UpStairOk(s, i);
    assert i > 0 ==> IsUp(s, i, 0);
    forall k | 0 <= k < |s.levels[i].stairs| ensures OneStairBack(s, i, k) {
      var j := StairBack(s, i, k);
    }
  }

  ghost predicate IsTree(s: State) {
    && |s.levels| >= 1
    && forall i :: 0 <= i < |s.levels| ==>
         OneStairUp(s, i) && EveryStairHasOneBack(s, i) && StairsMatchTiles(s.levels[i])
  }

  lemma InvGivesTree(o: Options, s: State)
    requires Inv(o, s)
    ensures IsTree(s)
  {
    hide OneStairUp, EveryStairHasOneBack, StairsMatchTiles, UpStairOk, DownStairsOk, Connected;
    forall i | 0 <= i < |s.levels|
      ensures UpStairOk(s, i) && DownStairsOk(s, i) && StairsMatchTiles(s.levels[i])
    {
      assert LevelOk(o, s, i);
    }
    forall i | 0 <= i < |s.levels| ensures OneStairUp(s, i) && EveryStairHasOneBack(s, i) {
      StairsOfLevel(s, i);
    }
  }

  /** The levels form a tree rooted at level 0 whose edges are the staircases, and
      stair tiles are exactly the cells of stairs. */
  lemma StairsFormATree(o: Options, s: State)
    requires Reachable(o, s)
    ensures IsTree(s)
  {
    hide Reachable, Centre;
    ReachableSound(o, s);
    if Roomy(o) {
      InvGivesTree(o, s);
    }
  }

  lemma StairBack(s: State, i: int, k: int) returns (j: int)
    requires forall i :: 0 <= i < |s.levels| ==> UpStairOk(s, i) && DownStairsOk(s, i)
    requires 0 <= i < |s.levels| && 0 <= k < |s.levels[i].stairs|
    ensures Reciprocal(s, i, k, j) && forall m :: Reciprocal(s, i, k, m) ==> m == j
  {
    var a := s.levels[i].stairs[k];
    assert UpStairOk(s, i) && DownStairsOk(s, i);
    assert UpStairOk(s, a.toLevel) && DownStairsOk(s, a.toLevel);
    if a.dir.StairDown? {
      j := 0;
    } else {
      j :| 0 <= j < |s.levels[a.toLevel].stairs| && s.levels[a.toLevel].stairs[j].dir == StairDown
           && s.levels[a.toLevel].stairs[j].toLevel == i;
    }
  }

  // ----- Features

  lemma FeaturesWellPlaced(o: Options, s: State)
    requires Reachable(o, s)
    ensures forall i :: 0 <= i < |s.levels| ==> FeaturesPlaced(s.levels[i])
  {
    ReachableSound(o, s);
    if Roomy(o) {
      forall i | 0 <= i < |s.levels| ensures FeaturesPlaced(s.levels[i]) {
        assert LevelOk(o, s, i);
      }
    }
  }
}
