/** How a dungeon changes over a run: carving only adds, the outer ring stays rock,
    and growth is bounded. */
module DungeonHistory {
  import opened Paths
  import opened DungeonModel
  import opened DungeonGrowth
  import opened DungeonInvariant
  import opened DungeonRuns
  import opened DungeonTheorems

  /** after is before with carvable rock opened and nothing else touched; features and
      stairs are only ever added. */
  ghost predicate OnlyCarved(before: LevelView, after: LevelView) {
    && after.depth == before.depth && after.width == before.width && after.height == before.height
    && after.tiles.Keys == before.tiles.Keys
    && before.features <= after.features && before.stairs <= after.stairs
    && forall p :: p in before.tiles && after.tiles[p] != before.tiles[p] ==>
         before.tiles[p].TileRock? && before.Carvable(p)
  }

  ghost predicate Later(s: State, t: State) {
    && |s.levels| <= |t.levels| && s.entrance == t.entrance
    && forall i :: 0 <= i < |s.levels| ==> OnlyCarved(s.levels[i], t.levels[i])
  }

  lemma LaterSelf(s: State)
    ensures Later(s, s)
  {
  }

  lemma LaterTrans(s: State, t: State, u: State)
    requires Later(s, t) && Later(t, u)
    ensures Later(s, u)
  {
    forall i | 0 <= i < |s.levels| ensures OnlyCarved(s.levels[i], u.levels[i]) {
      assert OnlyCarved(s.levels[i], t.levels[i]) && OnlyCarved(t.levels[i], u.levels[i]);
    }
  }

  lemma PatchLater(s: State, k: int, p: Patch)
    requires 0 <= k < |s.levels| && GoodPatch(s.levels[k], s.frontier, k, p)
    ensures Later(s, WithPatch(s, k, p))
  {
    var n := |s.levels[k].features|;
    assert s.levels[k].features == p.level.features[..n];
  }

  lemma DescendLater(o: Options, s: State, xp: ExpansionPoint)
    requires PointOk(s, xp) && !s.levels[xp.level].Walkable(xp.Ahead())
    ensures Later(s, Descend(o, s, xp))
  {
    hide Child, LandingPoints;
  }

  lemma GrowLater(o: Options, s: State, xp: ExpansionPoint, c: Choice)
    requires Inv(o, s) && PointOk(s, xp) && Allowed(o, s, xp, c)
    ensures Later(s, Grow(o, s, xp, c))
  {
    hide Later, Descend, Inv, GoodPatch;
    if c.GrowStairs? {
      DescendLater(o, s, xp);
    } else {
      var p := GrowPatches(o, s, xp, c);
      PatchLater(s, xp.level, p);
    }
  }

  lemma StepLater(o: Options, s: State, c: Choice, t: State)
    requires Sound(o, s) && Step(o, s, c, t)
    ensures Later(s, t)
  {
    PopInv(o, s);
    GrowLater(o, Pop(s), s.frontier[0], c);
  }

  lemma AddStepLater(o: Options, r: State, s: State, c: Choice, t: State)
    requires Later(r, s) && Sound(o, s) && Step(o, s, c, t)
    ensures Later(r, t)
  {
    StepLater(o, s, c, t);
    LaterTrans(r, s, t);
  }

  lemma {:induction false} TraceLater(o: Options, states: seq<State>, choices: seq<Choice>, i: nat, j: nat)
    requires IsTrace(o, states, choices) && Sound(o, states[0]) && i <= j <= |choices|
    ensures Later(states[i], states[j])
    decreases j
  {
    hide Sound, Step, Later;
    if i < j {
      TraceLater(o, states, choices, i, j - 1);
      TraceSound(o, states, choices, j - 1);
      AddStepLater(o, states[i], states[j - 1], choices[j - 1], states[j]);
    } else {
      LaterSelf(states[i]);
    }
  }

  /** Carving is monotone along every run: from any state to any later one. */
  lemma CarvingIsMonotone(o: Options, states: seq<State>, choices: seq<Choice>, i: nat, j: nat)
    requires IsRun(o, states, choices) && i <= j <= |choices|
    ensures Later(states[i], states[j])
  {
    InitSound(o);
    TraceLater(o, states, choices, i, j);
  }

  // ----- The outer ring

  ghost predicate EveryRingIsRock(s: State) {
    forall i :: 0 <= i < |s.levels| ==> RingIsRock(s.levels[i])
  }

  /** The outermost ring of every level stays rock on exactly these level sizes. */
  lemma RingExactly(o: Options, s: State)
    requires Reachable(o, s)
    ensures EveryRingIsRock(s) <==> Bordered(o) || Sliver(o)
  {
    ReachableSound(o, s);
    if Bordered(o) {
      forall i | 0 <= i < |s.levels| ensures RingIsRock(s.levels[i]) {
        assert LevelOk(o, s, i);
      }
    } else if Sliver(o) {
      forall p | p in s.levels[0].tiles ensures s.levels[0].tiles[p].TileRock? {
        InitTiles(o, p);
      }
    } else {
      var states: seq<State>, choices: seq<Choice> :| IsRun(o, states, choices) && states[|choices|] == s;
      CarvingIsMonotone(o, states, choices, 0, |choices|);
      assert OnlyCarved(states[0].levels[0], s.levels[0]);
      var p := BreachedRing(o);
      assert p in s.levels[0].tiles && s.levels[0].tiles[p] == Init(o).levels[0].tiles[p];
    }
  }

  /** On a level three or four cells across, the landing itself touches the edge. */
  lemma BreachedRing(o: Options) returns (p: Pos)
    requires ValidOptions(o) && !Bordered(o) && !Sliver(o)
    ensures var l := Init(o).levels[0]; p in l.Open() && !l.Carvable(p)
  {
    var w, h := o.levelWidth, o.levelHeight;
    var c := Centre(w, h);
    p := Pos(if w == 4 then 0 else if w <= 3 then w - 1 else c.x, if h == 4 then 0 else if h <= 3 then h - 1 else c.y);
    InitTiles(o, p);
  }

  // ----- Bounds

  lemma StepCosts(o: Options, s: State, c: Choice, t: State)
    requires Step(o, s, c, t)
    ensures t.budget == s.budget - 1 && t.budget >= 0 && |s.levels| <= |t.levels| <= |s.levels| + 1
  {
  }

  lemma {:induction false} TraceCosts(o: Options, states: seq<State>, choices: seq<Choice>, i: nat)
    requires IsTrace(o, states, choices) && i <= |choices| && states[0].budget >= 0
    ensures states[i].budget == states[0].budget - i && i <= states[0].budget
    ensures |states[0].levels| <= |states[i].levels| <= |states[0].levels| + i
  {
    if i > 0 {
      TraceCosts(o, states, choices, i - 1);
      StepCosts(o, states[i - 1], choices[i - 1], states[i]);
    }
  }

  /** How far a run can go: one unit of budget a step, three soft caps of frontier,
      one new level a step. */
  lemma GrowthBounds(o: Options, states: seq<State>, choices: seq<Choice>, i: nat)
    requires IsRun(o, states, choices) && i <= |choices|
    ensures states[i].budget == StartBudget(o) - i && |choices| <= StartBudget(o)
    ensures |states[i].frontier| <= 360
    ensures 1 <= |states[i].levels| <= 1 + i && |states[i].levels| <= o.maxLevels
  {
    InitSound(o);
    TraceCosts(o, states, choices, i);
    TraceCosts(o, states, choices, |choices|);
    TraceSound(o, states, choices, i);
  }

  /** A crowded frontier opens no chamber, vault or level: the step adds no level, no
      stair, no feature, and digs nothing but floor in a straight line ahead. */
  lemma CrowdedStepsOnlyDigPassages(o: Options, s: State, c: Choice, t: State)
    requires Step(o, s, c, t) && |s.frontier| > 120
    ensures |t.levels| == |s.levels|
    ensures var xp := s.frontier[0];
            forall i :: 0 <= i < |s.levels| ==>
              && t.levels[i].stairs == s.levels[i].stairs && t.levels[i].features == s.levels[i].features
              && forall p :: p in t.levels[i].tiles && t.levels[i].At(p) != s.levels[i].At(p) ==>
                   t.levels[i].At(p).TileFloor? && i == xp.level && (p.x == xp.x || p.y == xp.y)
  {
    var xp := s.frontier[0];
    var l := s.levels[xp.level];
    if c.GrowPassage? {
      CorridorIsALine(l, xp.At(), xp.dir, c.length);
      CorridorKeepsFeatures(l, xp.At(), xp.dir, c.length);
    }
  }

  lemma {:induction false} CorridorIsALine(l: LevelView, p: Pos, dir: Direction, n: int)
    ensures var (m, _) := Corridor(l, p, dir, n);
            && m.stairs == l.stairs && m.tiles.Keys == l.tiles.Keys
            && forall c :: c in m.tiles && m.tiles[c] != l.tiles[c] ==>
                 m.tiles[c].TileFloor? && (dir.Dx() == 0 ==> c.x == p.x) && (dir.Dy() == 0 ==> c.y == p.y)
    decreases if n < 0 then 0 else n
  {
    var q := dir.Ahead(p);
    if n > 0 && l.Carvable(q) && !l.Walkable(q) {
      CorridorIsALine(l.Set(q, TileFloor), q, dir, n - 1);
    }
  }

  // ----- Corridors

  /** c is one of the k cells straight ahead of p. */
  predicate OnLine(p: Pos, dir: Direction, k: int, c: Pos) {
    match dir
    case North => c.x == p.x && p.y - k <= c.y < p.y
    case East => c.y == p.y && p.x < c.x <= p.x + k
    case South => c.x == p.x && p.y < c.y <= p.y + k
    case West => c.y == p.y && p.x - k <= c.x < p.x
  }

  /** What a corridor of at most n cells does, said without its loop: it runs k cells
      straight ahead over carvable cells, all rock but perhaps the last, turns exactly
      the rock to floor, and stops because it is long enough, or the next cell is too
      near the edge, or its last cell was already open. */
  ghost predicate IsCorridor(l: LevelView, p: Pos, dir: Direction, n: int, m: LevelView, end: Pos, k: int) {
    && 0 <= k && (k <= n || k == 0) && end == Along(p, dir, k)
    && (forall c :: OnLine(p, dir, k, c) ==> l.Carvable(c))
    && (forall c :: OnLine(p, dir, k - 1, c) ==> !l.Walkable(c))
    && (k >= n || !l.Carvable(Along(p, dir, k + 1)) || (k >= 1 && l.Walkable(end)))
    && m.(tiles := l.tiles) == l && m.tiles.Keys == l.tiles.Keys
    && forall c :: c in l.tiles ==>
         m.tiles[c] == if OnLine(p, dir, k, c) && !l.Walkable(c) then TileFloor else l.tiles[c]
  }

  lemma {:induction false} CorridorShape(l: LevelView, p: Pos, dir: Direction, n: int) returns (k: int)
    requires l.Shaped()
    ensures IsCorridor(l, p, dir, n, Corridor(l, p, dir, n).0, Corridor(l, p, dir, n).1, k)
    decreases if n < 0 then 0 else n
  {
    hide IsCorridor;
    var q := dir.Ahead(p);
    if n <= 0 || !l.Carvable(q) {
      k := 0;
      NoCorridor(l, p, dir, n);
    } else if l.Walkable(q) {
      k := 1;
      OneStepCorridor(l, p, dir, n);
    } else {
      var m := l.Set(q, TileFloor);
      var k' := CorridorShape(m, q, dir, n - 1);
      k := k' + 1;
      var (dug, end) := Corridor(m, q, dir, n - 1);
      CorridorStep(l, p, dir, n, dug, end, k');
    }
  }

  lemma NoCorridor(l: LevelView, p: Pos, dir: Direction, n: int)
    requires l.Shaped() && (n <= 0 || !l.Carvable(dir.Ahead(p)))
    ensures IsCorridor(l, p, dir, n, l, p, 0)
  {
  }

  lemma OneStepCorridor(l: LevelView, p: Pos, dir: Direction, n: int)
    requires l.Shaped() && n > 0 && l.Carvable(dir.Ahead(p)) && l.Walkable(dir.Ahead(p))
    ensures IsCorridor(l, p, dir, n, l, dir.Ahead(p), 1)
  {
    forall c ensures OnLine(p, dir, 1, c) ==> c == dir.Ahead(p) {
      OnLineStep(p, dir, 0, c);
    }
  }

  lemma OnLineStep(p: Pos, dir: Direction, k: int, c: Pos)
    requires k >= 0 || c != dir.Ahead(p)
    ensures OnLine(p, dir, k + 1, c) <==> c == dir.Ahead(p) || OnLine(dir.Ahead(p), dir, k, c)
  {
    var Pos(x, y) := c;
  }

  /** Which cells a step adds to the corridor beyond it. */
  lemma CorridorLines(l: LevelView, p: Pos, dir: Direction, k: int, dug: LevelView)
    requires k >= 0
    requires var q := dir.Ahead(p); var m := l.Set(q, TileFloor);
             && q in l.tiles && l.Carvable(q) && !l.Walkable(q)
             && (forall c :: OnLine(q, dir, k, c) ==> m.Carvable(c))
             && (forall c :: OnLine(q, dir, k - 1, c) ==> !m.Walkable(c))
             && (forall c :: c in m.tiles ==>
                   (c in dug.tiles && dug.tiles[c] == if OnLine(q, dir, k, c) && !m.Walkable(c) then TileFloor else m.tiles[c]))
    ensures forall c :: OnLine(p, dir, k + 1, c) ==> l.Carvable(c)
    ensures forall c :: OnLine(p, dir, k, c) ==> !l.Walkable(c)
    ensures forall c :: c in l.tiles ==>
              (c in dug.tiles && dug.tiles[c] == if OnLine(p, dir, k + 1, c) && !l.Walkable(c) then TileFloor else l.tiles[c])
  {
    hide OnLine, Direction.Ahead;
    var q := dir.Ahead(p);
    var m := l.Set(q, TileFloor);
    forall c | OnLine(p, dir, k + 1, c) ensures l.Carvable(c) {
      OnLineStep(p, dir, k, c);
    }
    forall c | OnLine(p, dir, k, c) ensures !l.Walkable(c) {
      if c != q {
        OnLineStep(p, dir, k - 1, c);
        assert !m.Walkable(c);
      }
    }
    forall c | c in l.tiles
      ensures c in dug.tiles && dug.tiles[c] == if OnLine(p, dir, k + 1, c) && !l.Walkable(c) then TileFloor else l.tiles[c]
    {
      assert c in m.tiles;
      OnLineStep(p, dir, k, c);
    }
  }

  lemma CorridorStep(l: LevelView, p: Pos, dir: Direction, n: int, dug: LevelView, end: Pos, k: int)
    requires n > 0 && var q := dir.Ahead(p);
             && q in l.tiles && l.Carvable(q) && !l.Walkable(q)
             && IsCorridor(l.Set(q, TileFloor), q, dir, n - 1, dug, end, k)
    ensures IsCorridor(l, p, dir, n, dug, end, k + 1)
  {
    hide OnLine;
    var q := dir.Ahead(p);
    var m := l.Set(q, TileFloor);
    CorridorLines(l, p, dir, k, dug);
    assert Along(q, dir, k) == Along(p, dir, k + 1) && Along(q, dir, k + 1) == Along(p, dir, k + 2);
    assert dug.(tiles := l.tiles) == l;
    if k == 0 {
      assert end == q;
    } else {
      EndIsKept(q, dir, k, p);
      assert m.Walkable(end) ==> l.Walkable(end);
    }
  }

  /** Further ahead than the first cell is not the first cell. */
  lemma EndIsKept(q: Pos, dir: Direction, k: int, p: Pos)
    requires k > 0
    ensures Along(q, dir, k) != q
  {
  }
}
