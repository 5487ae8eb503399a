/** What holds of every state any run of the generator reaches. */
module DungeonRuns {
  import opened Paths
  import opened DungeonModel
  import opened DungeonGrowth
  import opened DungeonDigging
  import opened DungeonInvariant

  // ----- The staircase step

  lemma ChildFacts(w: int, h: int, depth: int, parent: int)
    requires w >= 3 && h >= 3
    ensures var l := Child(depth, w, h, parent); var c := Centre(w, h);
            && l.Shaped() && l.width == w && l.height == h && l.depth == depth
            && c in l.Open() && Connected(l, c)
            && FeaturesPlaced(l) && StairsMatchTiles(l)
            && (w >= 5 && h >= 5 ==> RingIsRock(l))
            && l.stairs == [Stair(c.x, c.y, StairUp, parent)]
            && (forall p :: LandingRect(c).Has(p) && p in l.tiles ==> l.tiles[p].Walkable())
  {
    LandingFacts(w, h, depth);
    var l := Child(depth, w, h, parent);
    assert l.Open() == Landing(NewLevel(depth, w, h)).Open();
    assert l.stairs[0].At() == Centre(w, h);
  }

  /** A stair down opens the cell a door would. */
  lemma StairOpens(l: LevelView, q: Pos, p: Pos, to: int)
    requires l.Shaped() && l.Carvable(p) && !l.Walkable(p) && q in l.Open() && Beside(q, p)
    ensures var m := WithStair(l, p, to);
            l.Open() <= m.Open() && forall a :: Connected(l, a) ==> Connected(m, a)
  {
    hide Dug;
    var m, d := WithStair(l, p, to), l.Set(p, TileDoor);
    DigOne(l, q, p, TileDoor);
    assert d.Open() == m.Open();
    DugOpens(l, d);
    forall a | Connected(l, a) ensures Connected(m, a) {
      DugKeepsConnected(l, d, a);
    }
  }

  lemma StairMatches(l: LevelView, p: Pos, to: int)
    requires l.Shaped() && l.InBounds(p) && !l.Walkable(p) && StairsMatchTiles(l)
    ensures StairsMatchTiles(WithStair(l, p, to))
  {
    var m, n := WithStair(l, p, to), |l.stairs|;
    assert m.stairs[n].At() == p;
    forall c | c in m.tiles && (m.tiles[c].TileStairsUp? || m.tiles[c].TileStairsDown?)
      ensures exists k :: 0 <= k < |m.stairs| && m.stairs[k].At() == c
    {
      if c != p {
        var k :| 0 <= k < n && l.stairs[k].At() == c;
        assert m.stairs[k].At() == c;
      }
    }
  }

  /** The level a staircase is dug into. */
  lemma StairsDig(l: LevelView, q: Pos, p: Pos, to: int)
    requires l.Shaped() && l.Carvable(p) && !l.Walkable(p) && q in l.Open() && Beside(q, p)
    ensures var m := WithStair(l, p, to);
            && m.Shaped() && l.Open() <= m.Open()
            && (forall a :: Connected(l, a) ==> Connected(m, a))
            && (FeaturesPlaced(l) ==> FeaturesPlaced(m))
            && (StairsMatchTiles(l) ==> StairsMatchTiles(m))
            && (RingIsRock(l) ==> RingIsRock(m))
  {
    hide Connected, StairsMatchTiles, LevelView.Open;
    StairOpens(l, q, p, to);
    if StairsMatchTiles(l) {
      StairMatches(l, p, to);
    }
  }

  /** t is s with a staircase at p on level k and a new level below it. */
  ghost predicate Deeper(s: State, t: State, k: int, p: Pos, c: Pos)
    requires 0 <= k < |s.levels|
  {
    var n := |s.levels|;
    && |t.levels| == n + 1 && t.entrance == s.entrance
    && (forall i :: 0 <= i < n && i != k ==> t.levels[i] == s.levels[i])
    && t.levels[k].depth == s.levels[k].depth
    && t.levels[k].stairs == s.levels[k].stairs + [Stair(p.x, p.y, StairDown, n)]
    && t.levels[n].depth == s.levels[k].depth + 1
    && t.levels[n].stairs == [Stair(c.x, c.y, StairUp, k)]
  }

  lemma KeepsHasStair(s: State, t: State, k: int, p: Pos, c: Pos, u: int, dir: StairDir, to: int)
    requires 0 <= k < |s.levels| && Deeper(s, t, k, p, c)
    requires 0 <= u < |s.levels| && HasStair(s.levels[u], dir, to)
    ensures HasStair(t.levels[u], dir, to)
  {
    var st := s.levels[u].stairs;
    var j :| 0 <= j < |st| && st[j].dir == dir && st[j].toLevel == to;
    assert t.levels[u].stairs[j] == st[j];
  }

  lemma DeeperKeepsUp(s: State, t: State, k: int, p: Pos, c: Pos, i: int)
    requires 0 <= k < |s.levels| && Deeper(s, t, k, p, c)
    requires 0 <= i < |s.levels| && UpStairOk(s, i)
    ensures UpStairOk(t, i) && Arrival(t, i) == Arrival(s, i)
  {
    hide HasStair;
    var st := s.levels[i].stairs;
    assert forall j :: 0 <= j < |st| ==> t.levels[i].stairs[j] == st[j];
    if i > 0 {
      KeepsHasStair(s, t, k, p, c, st[0].toLevel, StairDown, i);
    }
  }

  lemma DeeperKeepsDown(s: State, t: State, k: int, p: Pos, c: Pos, i: int)
    requires 0 <= k < |s.levels| && Deeper(s, t, k, p, c)
    requires 0 <= i < |s.levels| && DownStairsOk(s, i)
    ensures DownStairsOk(t, i)
  {
    var st := s.levels[i].stairs;
    assert forall j :: 0 <= j < |st| ==> t.levels[i].stairs[j] == st[j];
    forall j | 0 <= j < |st| && st[j].dir.StairDown?
      ensures |t.levels[st[j].toLevel].stairs| >= 1 && t.levels[st[j].toLevel].stairs[0].toLevel == i
    {
      assert t.levels[st[j].toLevel].stairs[0] == s.levels[st[j].toLevel].stairs[0];
    }
  }

  lemma DeeperAddsToTree(s: State, t: State, k: int, p: Pos, c: Pos)
    requires 0 <= k < |s.levels| && Deeper(s, t, k, p, c)
    ensures UpStairOk(t, |s.levels|) && DownStairsOk(t, |s.levels|) && Arrival(t, |s.levels|) == c
  {
    assert t.levels[k].stairs[|s.levels[k].stairs|].toLevel == |s.levels|;
    assert HasStair(t.levels[k], StairDown, |s.levels|);
  }

  /** One level of the state after a staircase. */
  lemma DeeperLevelOk(o: Options, s: State, xp: ExpansionPoint, i: int)
    requires Roomy(o) && PointOk(s, xp) && LevelOk(o, s, xp.level)
    requires !s.levels[xp.level].Walkable(xp.Ahead()) && s.levels[xp.level].Carvable(xp.Ahead())
    requires |s.levels| < o.maxLevels
    requires 0 <= i <= |s.levels| && (i < |s.levels| ==> LevelOk(o, s, i))
    ensures LevelOk(o, Descend(o, s, xp), i)
    ensures i < |s.levels| ==> s.levels[i].Open() <= Descend(o, s, xp).levels[i].Open()
  {
    hide Clamped, Connected, FeaturesPlaced, StairsMatchTiles, RingIsRock, UpStairOk, DownStairsOk, HasStair;
    var t := Descend(o, s, xp);
    var k, n, p, c := xp.level, |s.levels|, xp.Ahead(), Centre(o.levelWidth, o.levelHeight);
    var l := s.levels[k];
    assert Deeper(s, t, k, p, c);
    assert t.levels[k] == WithStair(l, p, n);
    if i == n {
      ChildFacts(o.levelWidth, o.levelHeight, l.depth + 1, k);
      DeeperAddsToTree(s, t, k, p, c);
    } else {
      DeeperKeepsUp(s, t, k, p, c, i);
      DeeperKeepsDown(s, t, k, p, c, i);
      if i == k {
        StairsDig(l, xp.At(), p, n);
      }
    }
  }

  ghost predicate Opens(s: State, t: State) {
    && |s.levels| <= |t.levels|
    && forall i :: 0 <= i < |s.levels| ==> s.levels[i].Open() <= t.levels[i].Open()
  }

  lemma FrontierAppends(s: State, t: State, points: seq<ExpansionPoint>)
    requires t.frontier == s.frontier + points && Opens(s, t) && FrontierOk(s)
    requires forall j :: 0 <= j < |points| ==> PointOk(t, points[j])
    ensures FrontierOk(t)
  {
    forall j | 0 <= j < |t.frontier| ensures PointOk(t, t.frontier[j]) {
      if j < |s.frontier| {
        assert PointOk(s, s.frontier[j]);
      } else {
        assert t.frontier[j] == points[j - |s.frontier|];
      }
    }
  }

  lemma ChildPointsOk(o: Options, s: State, t: State, xp: ExpansionPoint)
    requires Roomy(o) && OnLevel(s, xp)
    requires |t.levels| == |s.levels| + 1
    requires t.levels[|s.levels|] == Child(s.levels[xp.level].depth + 1, o.levelWidth, o.levelHeight, xp.level)
    ensures var points := LandingPoints(o.levelWidth, o.levelHeight, |s.levels|);
            |points| <= 4 && forall j :: 0 <= j < |points| ==> PointOk(t, points[j])
  {
    ChildFacts(o.levelWidth, o.levelHeight, s.levels[xp.level].depth + 1, xp.level);
    LandingPointsAtOk(t.levels[|s.levels|], Centre(o.levelWidth, o.levelHeight), |s.levels|, 4);
  }

  lemma DescendLevels(o: Options, s: State, xp: ExpansionPoint)
    requires Roomy(o) && PointOk(s, xp) && !s.levels[xp.level].Walkable(xp.Ahead()) && LevelsOk(o, s)
    requires |s.levels| < o.maxLevels && s.levels[xp.level].Carvable(xp.Ahead())
    ensures LevelsOk(o, Descend(o, s, xp)) && Opens(s, Descend(o, s, xp))
  {
    var n := |s.levels|;
    forall i | 0 <= i <= n
      ensures LevelOk(o, Descend(o, s, xp), i)
      ensures i < n ==> s.levels[i].Open() <= Descend(o, s, xp).levels[i].Open()
    {
      DeeperLevelOk(o, s, xp, i);
    }
  }

  lemma DescendFrontier(o: Options, s: State, xp: ExpansionPoint)
    requires Roomy(o) && PointOk(s, xp) && FrontierOk(s) && Opens(s, Descend(o, s, xp))
    requires |s.levels| < o.maxLevels && s.levels[xp.level].Carvable(xp.Ahead())
    ensures FrontierOk(Descend(o, s, xp)) && |Descend(o, s, xp).frontier| <= |s.frontier| + 4
  {
    hide LandingPoints, Centre, NewLevel;
    var t := Descend(o, s, xp);
    ChildPointsOk(o, s, t, xp);
    FrontierAppends(s, t, LandingPoints(o.levelWidth, o.levelHeight, |s.levels|));
  }

  lemma DescendKeepsInv(o: Options, s: State, xp: ExpansionPoint)
    requires Roomy(o) && Inv(o, s) && PointOk(s, xp) && !Crowded(s)
    requires !s.levels[xp.level].Walkable(xp.Ahead())
    ensures Inv(o, Descend(o, s, xp))
  {
    if |s.levels| < o.maxLevels && s.levels[xp.level].Carvable(xp.Ahead()) {
      DescendLevels(o, s, xp);
      DescendFrontier(o, s, xp);
    }
  }

  // ----- Any step, any run

  lemma NoPatchGood(l: LevelView, f: seq<ExpansionPoint>, k: int)
    requires |f| <= 3 * FRONTIER_SOFT_CAP
    ensures GoodPatch(l, f, k, Patch(l, f))
  {
    DugSelf(l);
  }

  lemma RoomToGrow(o: Options, s: State, xp: ExpansionPoint)
    requires Inv(o, s) && PointOk(s, xp)
    ensures s.levels[xp.level].Shaped() && |s.frontier| <= 3 * FRONTIER_SOFT_CAP
  {
    assert LevelOk(o, s, xp.level);
  }

  /** Every choice but a staircase comes down to a patch on the level it grows. */
  lemma GrowPatches(o: Options, s: State, xp: ExpansionPoint, c: Choice) returns (p: Patch)
    requires Inv(o, s) && PointOk(s, xp) && Allowed(o, s, xp, c) && !c.GrowStairs?
    ensures GoodPatch(s.levels[xp.level], s.frontier, xp.level, p)
    ensures Grow(o, s, xp, c) == WithPatch(s, xp.level, p)
  {
    hide GoodPatch, Placeable, Passage, Vault, Chamber, Inv, IsSpent, ExitsFit, ScatterFits, VaultExtraFits, RoomRect;
    var l := s.levels[xp.level];
    RoomToGrow(o, s, xp);
    NoPatchGood(l, s.frontier, xp.level);
    p := Patch(l, s.frontier);
    match c
    case Spent =>
    case DeadEnd =>
    case GrowPassage(length, turn) =>
      PassageGood(l, s.frontier, xp, length, turn);
      p := Passage(l, s.frontier, xp, length, turn);
    case GrowVault(w, h, off, extra) =>
      var r := RoomRect(xp, w, h, off);
      if Placeable(l, r) {
        VaultGood(l, s.frontier, xp, w, h, off, extra);
        p := Patch(Vault(l, xp, r, extra), s.frontier);
      }
    case GrowChamber(w, h, off, fs, exits, length, turn) =>
      var r := RoomRect(xp, w, h, off);
      if Placeable(l, r) {
        ChamberGood(l, s.frontier, xp, w, h, off, fs, exits);
        p := Chamber(l, s.frontier, xp, r, fs, exits);
      } else {
        PassageGood(l, s.frontier, xp, length, turn);
        p := Passage(l, s.frontier, xp, length, turn);
      }
  }

  lemma GrowKeepsInv(o: Options, s: State, xp: ExpansionPoint, c: Choice)
    requires Roomy(o) && Inv(o, s) && PointOk(s, xp) && Allowed(o, s, xp, c)
    ensures Inv(o, Grow(o, s, xp, c))
  {
    if c.GrowStairs? {
      DescendKeepsInv(o, s, xp);
    } else {
      var p := GrowPatches(o, s, xp, c);
      DigKeepsInv(o, s, xp.level, p);
    }
  }

  lemma StepKeepsInv(o: Options, s: State, c: Choice, t: State)
    requires Roomy(o) && Inv(o, s) && Step(o, s, c, t)
    ensures Inv(o, t)
  {
    PopInv(o, s);
    GrowKeepsInv(o, Pop(s), s.frontier[0], c);
  }

  /** A level too small for a carvable cell beside its centre seeds no growth. */
  lemma {:induction false} CrampedLandingSeedsNothing(w: int, h: int, level: int, n: nat)
    requires n <= 4 && (w <= 2 || h <= 2)
    ensures LandingPointsAt(w, h, Centre(w, h), level, n) == []
  {
    if n > 0 {
      CrampedLandingSeedsNothing(w, h, level, n - 1);
    }
  }

  /** The invariant for every level size: on levels too small to grow, the dungeon
      stays as it started. */
  ghost predicate Sound(o: Options, s: State) {
    ValidOptions(o) && if Roomy(o) then Inv(o, s) else s == Init(o) && s.frontier == []
  }

  lemma InitSound(o: Options)
    requires ValidOptions(o)
    ensures Sound(o, Init(o))
  {
    if Roomy(o) {
      InitInv(o);
    } else {
      CrampedLandingSeedsNothing(o.levelWidth, o.levelHeight, 0, |COMPASS|);
    }
  }

  lemma StepKeepsSound(o: Options, s: State, c: Choice, t: State)
    requires Sound(o, s) && Step(o, s, c, t)
    ensures Sound(o, t)
  {
    StepKeepsInv(o, s, c, t);
  }

  lemma {:induction false} TraceSound(o: Options, states: seq<State>, choices: seq<Choice>, i: nat)
    requires IsTrace(o, states, choices) && Sound(o, states[0]) && i <= |choices|
    ensures Sound(o, states[i])
  {
    if i > 0 {
      TraceSound(o, states, choices, i - 1);
      StepKeepsSound(o, states[i - 1], choices[i - 1], states[i]);
    }
  }

  lemma ReachableSound(o: Options, s: State)
    requires Reachable(o, s)
    ensures Sound(o, s)
  {
    var states: seq<State>, choices: seq<Choice> :| IsRun(o, states, choices) && states[|choices|] == s;
    InitSound(o);
    TraceSound(o, states, choices, |choices|);
  }
}
