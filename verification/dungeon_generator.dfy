/** The generator itself: loops and in-place writes, each method proved to make a
    step the state machine of dungeon_growth.dfy allows. */
module DungeonGenerator {
  import opened Paths
  import opened Random
  import opened DungeonModel
  import opened DungeonGrowth
  import opened DungeonLevel
  import opened DungeonInvariant
  import opened DungeonRuns

  ghost function Views(ls: seq<Level>): (vs: seq<LevelView>)
    requires forall i :: 0 <= i < |ls| ==> ls[i].Valid()
    reads ls, set l | l in ls :: l.Tiles
    ensures |vs| == |ls| && forall i :: 0 <= i < |ls| ==> vs[i] == ls[i].View()
  {
    if ls == [] then [] else Views(ls[..|ls| - 1]) + [ls[|ls| - 1].View()]
  }

  lemma EnqueueOneOrTwo(f: seq<ExpansionPoint>, w: int, h: int, level: int, p: Pos, d: Direction, e: Direction)
    ensures EnqueueAll(f, w, h, level, p, [d]) == DungeonModel.Enqueue(f, w, h, level, p, d)
    ensures EnqueueAll(f, w, h, level, p, [d, e])
              == DungeonModel.Enqueue(DungeonModel.Enqueue(f, w, h, level, p, d), w, h, level, p, e)
  {
    var g := DungeonModel.Enqueue(f, w, h, level, p, d);
    assert [d, e][1..] == [e] && [d][1..] == [] && [e][1..] == [];
    assert EnqueueAll(g, w, h, level, p, [e]) == DungeonModel.Enqueue(g, w, h, level, p, e);
  }

  lemma ShuffledStaysDistinct<T>(s: seq<T>, r: seq<T>)
    requires multiset(s) == multiset(r) && forall i, j :: 0 <= i < j < |s| ==> s[i] != s[j]
    ensures forall i, j :: 0 <= i < j < |r| ==> r[i] != r[j]
  {
    DistinctOnce(s);
    forall i, j | 0 <= i < j < |r| ensures r[i] != r[j] {
      assert r == r[..i] + [r[i]] + r[i + 1..];
      assert r[j] in r[i + 1..];
      assert multiset(r)[r[i]] == multiset(r[..i])[r[i]] + 1 + multiset(r[i + 1..])[r[i]];
      assert r[i] in multiset(s);
    }
  }

  lemma {:induction false} DistinctOnce<T>(s: seq<T>)
    requires forall i, j :: 0 <= i < j < |s| ==> s[i] != s[j]
    ensures forall x :: x in s ==> multiset(s)[x] == 1
  {
    if s != [] {
      var t := s[..|s| - 1];
      DistinctOnce(t);
      assert s == t + [s[|s| - 1]];
      assert s[|s| - 1] !in t;
    }
  }

  lemma NoExits(l: LevelView, r: Rect, entry: Direction, f: seq<ExpansionPoint>, level: int)
    ensures ExitsFit(l, r, entry, []) && Punch(l, []) == l && EnqueueExits(f, l.width, l.height, level, []) == f
  {
  }

  lemma AddExit(l: LevelView, r: Rect, entry: Direction, exits: seq<Exit>, e: Exit)
    requires ExitsFit(l, r, entry, exits) && |exits| < 3
    requires forall j :: 0 <= j < |exits| ==> exits[j].dir != e.dir
    requires e.dir != entry.Around() && OnWall(r, e.At(), e.dir) && DoorwayFits(Punch(l, exits), e.At(), e.dir)
    requires e.door.TileDoor? || (exits != [] && e.door.TileSecretDoor?)
    ensures ExitsFit(l, r, entry, exits + [e])
  {
    hide Punch, OnWall, DoorwayFits;
    var es := exits + [e];
    assert es[..|exits|] == exits;
    forall i | 0 <= i < |exits| ensures es[..i] == exits[..i] && es[i] == exits[i] {}
  }

  lemma AddedExit(l: LevelView, exits: seq<Exit>, e: Exit, f: seq<ExpansionPoint>, w: int, h: int, level: int)
    ensures Punch(l, exits + [e]) == Punch(l, exits).Set(e.At(), e.door)
    ensures EnqueueExits(f, w, h, level, exits + [e])
              == DungeonModel.Enqueue(EnqueueExits(f, w, h, level, exits), w, h, level, e.At(), e.dir)
  {
    assert (exits + [e])[..|exits|] == exits;
  }

  /** The walls in whatever order are all four walls. */
  lemma EveryWallTried(l: LevelView, r: Rect, entry: Direction, order: seq<Direction>, walls: seq<Direction>)
    requires order == [North, South, West, East] && multiset(walls) == multiset(order)
    requires forall k :: 0 <= k < |walls| && walls[k] != entry.Around() ==> WallBlocked(l, r, walls[k])
    ensures ExitsDue(l, r, entry, [])
  {
    hide WallBlocked;
    forall dir: Direction ensures dir in walls {
      var k := if dir.North? then 0 else if dir.South? then 1 else if dir.West? then 2 else 3;
      assert order[k] == dir;
      assert dir in multiset(walls);
    }
  }

  lemma LandingHasNoStairs(depth: int, w: int, h: int)
    ensures Landing(NewLevel(depth, w, h)).Set(Centre(w, h), TileStairsUp).stairs == []
  {
  }

  lemma DescendIs(o: Options, s: State, xp: ExpansionPoint, t: State)
    requires OnLevel(s, xp) && |s.levels| < o.maxLevels && s.levels[xp.level].Carvable(xp.Ahead())
    requires t.levels == s.levels[xp.level := WithStair(s.levels[xp.level], xp.Ahead(), |s.levels|)]
                           + [Child(s.levels[xp.level].depth + 1, o.levelWidth, o.levelHeight, xp.level)]
    requires t.frontier == s.frontier + LandingPoints(o.levelWidth, o.levelHeight, |s.levels|)
    requires t.budget == s.budget && t.entrance == s.entrance
    ensures t == Descend(o, s, xp)
  {
    hide Child, LandingPoints, LevelView.Set;
  }

  lemma SpentIsAllowed(o: Options, s: State, xp: ExpansionPoint)
    requires OnLevel(s, xp) && IsSpent(s.levels[xp.level], xp)
    ensures Allowed(o, s, xp, Spent)
  {
  }

  lemma ChoiceIsAllowed(o: Options, s: State, xp: ExpansionPoint, c: Choice)
    requires OnLevel(s, xp) && !IsSpent(s.levels[xp.level], xp) && !c.Spent? && (Crowded(s) ==> c.GrowPassage?)
    requires c.GrowPassage? ==> LengthFits(c.length)
    requires c.GrowVault? ==> VaultFits(s.levels[xp.level], xp, c)
    requires c.GrowChamber? ==> ChamberFits(o, s.levels[xp.level], xp, c)
    ensures Allowed(o, s, xp, c)
  {
    hide VaultFits, ChamberFits, LengthFits, IsSpent;
  }

  lemma PlaceableExactly(l: LevelView, r: Rect)
    ensures Placeable(l, r) <==>
              forall p: Pos :: r.minX - 1 <= p.x <= r.maxX + 1 && r.minY - 1 <= p.y <= r.maxY + 1 ==>
                1 <= p.x < l.width - 1 && 1 <= p.y < l.height - 1 && l.At(p).TileRock?
  {
    if Placeable(l, r) {
      forall p: Pos | r.minX - 1 <= p.x <= r.maxX + 1 && r.minY - 1 <= p.y <= r.maxY + 1
        ensures 1 <= p.x < l.width - 1 && 1 <= p.y < l.height - 1 && l.At(p).TileRock?
      {
        assert r.Padded().Has(p);
      }
    }
  }

  lemma GrowNothing(o: Options, s: State, xp: ExpansionPoint, c: Choice)
    requires OnLevel(s, xp) && (c.Spent? || c.DeadEnd?)
    ensures DungeonGrowth.Grow(o, s, xp, c) == s
  {
  }

  lemma NextPoint(o: Options, s: State)
    requires Sound(o, s) && s.frontier != []
    ensures OnLevel(s, s.frontier[0])
  {
    assert PointOk(s, s.frontier[0]);
  }

  lemma StepPays(o: Options, s: State, c: Choice, t: State)
    requires Step(o, s, c, t)
    ensures t.budget == s.budget - 1
  {
  }

  lemma StartTrace(o: Options, s: State)
    ensures IsTrace(o, [s], [])
  {
  }

  lemma ExtendTrace(o: Options, states: seq<State>, choices: seq<Choice>, c: Choice, t: State)
    requires IsTrace(o, states, choices) && Step(o, states[|choices|], c, t)
    ensures IsTrace(o, states + [t], choices + [c])
  {
    hide Step;
    var more, moves := states + [t], choices + [c];
    forall i | 0 <= i < |moves| ensures Step(o, more[i], moves[i], more[i + 1]) {
      assert i < |choices| ==> Step(o, states[i], choices[i], states[i + 1]);
    }
  }

  lemma InitIsReachable(o: Options)
    requires ValidOptions(o)
    ensures Reachable(o, Init(o))
  {
    hide Init;
    StartTrace(o, Init(o));
    assert IsRun(o, [Init(o)], []);
  }

  lemma StepIsReachable(o: Options, s: State, c: Choice, t: State)
    requires Reachable(o, s) && Step(o, s, c, t)
    ensures Reachable(o, t)
  {
    hide Step, Init;
    var states: seq<State>, choices: seq<Choice> :| IsRun(o, states, choices) && states[|choices|] == s;
    ExtendTrace(o, states, choices, c, t);
    var more, moves := states + [t], choices + [c];
    assert IsRun(o, more, moves) && more[|moves|] == t;
  }

  class Dungeon {
    var Levels: seq<Level>
    var EntranceX: int
    var EntranceY: int

    constructor ()
      ensures Levels == []
    {
      Levels := [];
    }
  }

  twostate predicate AllFresh(new d: Dungeon)
    reads d
  {
    forall i :: 0 <= i < |d.Levels| ==> fresh(d.Levels[i]) && fresh(d.Levels[i].Tiles)
  }

  class Generator {
    const opts: Options
    const rnd: Rand
    const dungeon: Dungeon
    var frontier: seq<ExpansionPoint>
    var budget: int

    ghost predicate Valid()
      reads dungeon
    {
      var ls := dungeon.Levels;
      && ValidOptions(opts)
      && (forall i :: 0 <= i < |ls| ==>
            ls[i].Valid() && ls[i].Width == opts.levelWidth && ls[i].Height == opts.levelHeight)
      && (forall i, j :: 0 <= i < j < |ls| ==> ls[i] != ls[j] && ls[i].Tiles != ls[j].Tiles)
    }

    ghost predicate HasLevel(k: int)
      reads dungeon
    {
      0 <= k < |dungeon.Levels| && dungeon.Levels[k].Valid()
    }

    ghost function View(k: int): LevelView
      requires HasLevel(k)
      reads dungeon, dungeon.Levels, set l | l in dungeon.Levels :: l.Tiles
    {
      dungeon.Levels[k].View()
    }

    function Wide(k: int): int
      requires HasLevel(k)
      reads dungeon
    {
      dungeon.Levels[k].Width
    }

    function High(k: int): int
      requires HasLevel(k)
      reads dungeon
    {
      dungeon.Levels[k].Height
    }

    /** Every level there was is still there; any other is new. */
    twostate predicate KeepsLevels()
      reads dungeon
    {
      && old(dungeon.Levels) <= dungeon.Levels
      && forall i :: |old(dungeon.Levels)| <= i < |dungeon.Levels| ==>
           fresh(dungeon.Levels[i]) && fresh(dungeon.Levels[i].Tiles)
    }

    /** The whole generator as a state of the growth machine. */
    ghost function Abs(): State
      requires Valid()
      reads this, dungeon, dungeon.Levels, set l | l in dungeon.Levels :: l.Tiles
    {
      State(Views(dungeon.Levels), frontier, budget, Pos(dungeon.EntranceX, dungeon.EntranceY))
    }

    constructor (opts: Options, rnd: Rand, budget: int)
      requires ValidOptions(opts)
      ensures Valid() && fresh(dungeon) && dungeon.Levels == []
      ensures this.opts == opts && this.budget == budget && frontier == []
    {
      this.opts, this.rnd, this.budget, this.frontier := opts, rnd, budget, [];
      dungeon := new Dungeon();
    }

    /** Takes the oldest expansion point off the frontier, at the cost of one unit of budget. */
    method Take() returns (xp: ExpansionPoint)
      requires Valid() && frontier != []
      modifies this
      ensures Valid() && xp == old(frontier)[0] && Abs() == Pop(old(Abs()))
    {
      xp := frontier[0];
      frontier, budget := frontier[1..], budget - 1;
    }

    method Enqueue(level: int, x: int, y: int, dir: Direction)
      requires HasLevel(level)
      modifies this`frontier
      ensures frontier == DungeonModel.Enqueue(old(frontier), Wide(level), High(level), level, Pos(x, y), dir)
      ensures frontier == if |old(frontier)| < 360 && 1 <= x < Wide(level) - 1 && 1 <= y < High(level) - 1
                          then old(frontier) + [ExpansionPoint(level, x, y, dir)] else old(frontier)
    {
      if |frontier| >= FRONTIER_SOFT_CAP * 3 {
        return;
      }
      if !dungeon.Levels[level].Carvable(x, y) {
        return;
      }
      frontier := frontier + [ExpansionPoint(level, x, y, dir)];
    }

    /** Opens a landing as near (x0, y0) as the level leaves room for, and seeds it. */
    method CarveLanding(level: int, x0: int, y0: int) returns (x: int, y: int)
      requires HasLevel(level)
      modifies this`frontier, dungeon.Levels[level].Tiles
      ensures Pos(x, y) == Clamped(Wide(level), High(level), x0, y0)
      ensures View(level) == LandingAt(old(View(level)), Pos(x, y))
      ensures frontier == old(frontier) + LandingPointsAt(Wide(level), High(level), Pos(x, y), level, |COMPASS|)
    {
      hide Level.View, LevelView.Fill, LandingPointsAt;
      var l := dungeon.Levels[level];
      x, y := Clamp(x0, 2, l.Width - 3), Clamp(y0, 2, l.Height - 3);
      l.Fill(Rect(x - 1, y - 1, x + 1, y + 1), TileFloor);
      SeedLanding(level, x, y);
    }

    /** An expansion point out of a landing in each compass direction with room for one. */
    method SeedLanding(level: int, x: int, y: int)
      requires HasLevel(level)
      modifies this`frontier
      ensures frontier == old(frontier) + LandingPointsAt(Wide(level), High(level), Pos(x, y), level, |COMPASS|)
    {
      hide Level.View;
      var i := 0;
      while i < |COMPASS|
        invariant 0 <= i <= |COMPASS|
        invariant frontier == old(frontier) + LandingPointsAt(Wide(level), High(level), Pos(x, y), level, i)
      {
        var d := COMPASS[i];
        var dx, dy := d.Dx(), d.Dy();
        if dungeon.Levels[level].Carvable(x + dx * 2, y + dy * 2) {
          frontier := frontier + [ExpansionPoint(level, x + dx, y + dy, d)];
        }
        i := i + 1;
      }
    }

    method PassageLength() returns (n: int)
      ensures LengthFits(n) && n % 6 == 0 && 6 <= n <= 30
    {
      var r := rnd.Intn(5);
      n := (1 + r) * 6;
    }

    method CarveCorridor(level: int, x: int, y: int, dir: Direction, length: int) returns (cx: int, cy: int, moved: bool)
      requires HasLevel(level)
      modifies dungeon.Levels[level].Tiles
      ensures Corridor(old(View(level)), Pos(x, y), dir, length) == (View(level), Pos(cx, cy))
      ensures moved <==> Pos(cx, cy) != Pos(x, y)
      ensures !moved ==> View(level) == old(View(level))
    {
      hide Level.View, LevelView.Set;
      var l := dungeon.Levels[level];
      var dx, dy := dir.Dx(), dir.Dy();
      cx, cy, moved := x, y, false;
      var i := 0;
      while i < length
        invariant 0 <= i && Pos(cx, cy) == Along(Pos(x, y), dir, i)
        invariant moved <==> i > 0
        invariant i == 0 ==> l.View() == old(View(level))
        invariant Corridor(l.View(), Pos(cx, cy), dir, length - i) == Corridor(old(View(level)), Pos(x, y), dir, length)
      {
        var nx, ny := cx + dx, cy + dy;
        if !l.Carvable(nx, ny) {
          break;
        }
        if l.At(nx, ny).0.Walkable() {
          cx, cy, moved := nx, ny, true;
          break;
        }
        l.Set(nx, ny, TileFloor);
        cx, cy, moved := nx, ny, true;
        i := i + 1;
      }
    }

    method GrowPassage(xp: ExpansionPoint) returns (ghost length: int, ghost turn: Turn)
      requires HasLevel(xp.level)
      modifies this`frontier, dungeon.Levels[xp.level].Tiles
      ensures LengthFits(length)
      ensures Patch(View(xp.level), frontier) == Passage(old(View(xp.level)), old(frontier), xp, length, turn)
    {
      hide EnqueueAll, Heads, Corridor;
      var n := PassageLength();
      length, turn := n, Straight;
      var ex, ey, moved := CarveCorridor(xp.level, xp.x, xp.y, xp.dir, n);
      if moved {
        turn := QueueHeads(xp.level, ex, ey, xp.dir);
      }
    }

    /** Rolls which ways a passage that stopped at (x, y) goes on. */
    method QueueHeads(level: int, x: int, y: int, dir: Direction) returns (ghost turn: Turn)
      requires HasLevel(level)
      modifies this`frontier
      ensures frontier == EnqueueAll(old(frontier), Wide(level), High(level), level, Pos(x, y), Heads(turn, dir))
    {
      var r := rnd.Intn(100);
      if r < 60 {
        turn := Straight;
        EnqueueOneOrTwo(frontier, Wide(level), High(level), level, Pos(x, y), dir, dir);
        Enqueue(level, x, y, dir);
      } else if r < 80 {
        var coin := rnd.Intn(2);
        var side := if coin == 0 then dir.Right() else dir.Left();
        turn := Bend(coin == 0);
        EnqueueOneOrTwo(frontier, Wide(level), High(level), level, Pos(x, y), side, side);
        Enqueue(level, x, y, side);
      } else if r < 92 {
        ghost var f := frontier;
        Enqueue(level, x, y, dir);
        var coin := rnd.Intn(2);
        var side := if coin == 0 then dir.Right() else dir.Left();
        turn := SidePassage(coin == 0);
        EnqueueOneOrTwo(f, Wide(level), High(level), level, Pos(x, y), dir, side);
        Enqueue(level, x, y, side);
      } else {
        turn := Tee;
        EnqueueOneOrTwo(frontier, Wide(level), High(level), level, Pos(x, y), dir.Left(), dir.Right());
        Enqueue(level, x, y, dir.Left());
        Enqueue(level, x, y, dir.Right());
      }
    }

    method D3() returns (n: int)
      ensures 1 <= n <= 3
    {
      n := rnd.Intn(3);
      n := n + 1;
    }

    method RollSide() returns (n: int)
      ensures SideFits(opts.roomSize, n)
      ensures match opts.roomSize
              case RoomSizeCramped => 1 <= n <= 6
              case RoomSizeAverage => 2 <= n <= 6
              case RoomSizeHuge => 2 <= n <= 9
    {
      var a := D3();
      match opts.roomSize
      case RoomSizeCramped =>
        var r := rnd.Intn(100);
        if r < 65 {
          n := a;
        } else if r < 90 {
          var b := D3();
          n := a + b;
        } else {
          n := a + 3;
        }
      case RoomSizeHuge =>
        var r := rnd.Intn(2);
        var b := D3();
        n := if r == 0 then a + b else a + b + 3;
      case RoomSizeAverage =>
        var b := D3();
        n := a + b;
    }

    /** Lays a w*h room out ahead of xp; ok says whether it and the ring around it are
        solid carvable rock. */
    method PlaceableRect(xp: ExpansionPoint, w: int, h: int) returns (r: Rect, ok: bool, ghost off: int)
      requires HasLevel(xp.level) && w > 0 && h > 0
      ensures OffsetFits(xp.dir, w, h, off)
      ensures ok <==> Placeable(View(xp.level), RoomRect(xp, w, h, off))
      ensures ok ==> r == RoomRect(xp, w, h, off)
      ensures ok ==> Placeable(View(xp.level), r) && r.maxX - r.minX == w - 1 && r.maxY - r.minY == h - 1
    {
      var l := dungeon.Levels[xp.level];
      var dx, dy := xp.dir.Dx(), xp.dir.Dy();
      var doorX, doorY := xp.x + dx, xp.y + dy;
      if dx != 0 {
        var aheadX := doorX + dx;
        var minX, maxX := aheadX - w + 1, aheadX;
        if dx > 0 {
          minX, maxX := aheadX, aheadX + w - 1;
        }
        var o := rnd.Intn(h);
        off := o;
        r := Rect(minX, doorY - o, maxX, doorY - o + h - 1);
      } else {
        var aheadY := doorY + dy;
        var minY, maxY := aheadY - h + 1, aheadY;
        if dy > 0 {
          minY, maxY := aheadY, aheadY + h - 1;
        }
        var o := rnd.Intn(w);
        off := o;
        r := Rect(doorX - o, minY, doorX - o + w - 1, maxY);
      }
      assert r == RoomRect(xp, w, h, off);
      ok := PaddedIsRock(xp.level, r);
      if !ok {
        r := Rect(0, 0, 0, 0);
      }
    }

    method PaddedIsRock(level: int, r: Rect) returns (ok: bool)
      requires HasLevel(level)
      ensures ok <==> Placeable(View(level), r)
      ensures ok <==> forall p: Pos :: r.minX - 1 <= p.x <= r.maxX + 1 && r.minY - 1 <= p.y <= r.maxY + 1 ==>
                        1 <= p.x < Wide(level) - 1 && 1 <= p.y < High(level) - 1 && View(level).At(p).TileRock?
    {
      hide Level.View;
      var l := dungeon.Levels[level];
      PlaceableExactly(l.View(), r);
      var y := r.minY - 1;
      while y <= r.maxY + 1
        invariant r.minY - 1 <= y
        invariant forall p :: r.Padded().Swept(r.minX - 1, y, p) ==> l.View().Carvable(p) && !l.View().Walkable(p)
      {
        var x := r.minX - 1;
        while x <= r.maxX + 1
          invariant r.minX - 1 <= x
          invariant forall p :: r.Padded().Swept(x, y, p) ==> l.View().Carvable(p) && !l.View().Walkable(p)
        {
          if !l.Carvable(x, y) || l.At(x, y).0.Walkable() {
            assert r.Padded().Has(Pos(x, y));
            return false;
          }
          assert forall p: Pos :: p.x == x && p.y == y ==> p == Pos(x, y);
          x := x + 1;
        }
        assert forall p :: r.Padded().Swept(r.minX - 1, y + 1, p) ==> r.Padded().Swept(x, y, p);
        y := y + 1;
      }
      assert forall p :: r.Padded().Has(p) ==> r.Padded().Swept(r.minX - 1, y, p);
      ok := true;
    }

    method GrowSecretRoom(xp: ExpansionPoint) returns (done: bool, ghost w: int, ghost h: int, ghost off: int, ghost extra: seq<Feature>)
      requires HasLevel(xp.level)
      modifies dungeon.Levels[xp.level].Tiles, dungeon.Levels[xp.level]
      ensures VaultFits(old(View(xp.level)), xp, GrowVault(w, h, off, extra)) && 2 <= w <= 4 && 2 <= h <= 4
      ensures done <==> Placeable(old(View(xp.level)), RoomRect(xp, w, h, off))
      ensures View(xp.level) == if done then Vault(old(View(xp.level)), xp, RoomRect(xp, w, h, off), extra)
                                else old(View(xp.level))
    {
      hide VaultExtraFits, VaultChest, Placeable, LevelView.Fill, LevelView.Set;
      var l := dungeon.Levels[xp.level];
      var a := rnd.Intn(3);
      var b := rnd.Intn(3);
      w, h, extra := 2 + a, 2 + b, [];
      var r, ok, o := PlaceableRect(xp, 2 + a, 2 + b);
      off := o;
      if !ok {
        return false, w, h, off, extra;
      }
      done := true;
      l.Set(xp.x + xp.dir.Dx(), xp.y + xp.dir.Dy(), TileSecretDoor);
      l.Fill(r, TileFloor);
      extra := FurnishVault(xp.level, r);
    }

    /** A chest in the middle of a vault and perhaps a shrine or statue elsewhere. */
    method FurnishVault(level: int, r: Rect) returns (ghost extra: seq<Feature>)
      requires HasLevel(level) && r.minX <= r.maxX && r.minY <= r.maxY
      modifies dungeon.Levels[level]
      ensures dungeon.Levels[level].Stairs == old(dungeon.Levels[level].Stairs)
      ensures dungeon.Levels[level].Features == old(dungeon.Levels[level].Features) + [VaultChest(r)] + extra
      ensures VaultExtraFits(r, extra)
    {
      var l := dungeon.Levels[level];
      var cx, cy := (r.minX + r.maxX) / 2, (r.minY + r.maxY) / 2;
      l.Features := l.Features + [Feature(cx, cy, FeatureChest)];
      extra := [];
      var coin := rnd.Intn(2);
      if coin == 0 {
        var ox := rnd.Intn(r.maxX - r.minX + 1);
        var oy := rnd.Intn(r.maxY - r.minY + 1);
        var fx, fy := r.minX + ox, r.minY + oy;
        if fx != cx || fy != cy {
          var which := rnd.Intn(2);
          var kind := if which == 0 then FeatureStatue else FeatureShrine;
          l.Features := l.Features + [Feature(fx, fy, kind)];
          extra := [Feature(fx, fy, kind)];
        }
      }
    }

    method RollFeature(x: int, y: int) returns (f: Feature)
      ensures f.x == x && f.y == y && f.kind.IsValid()
    {
      var r := rnd.Intn(4);
      f := Feature(x, y, if r == 0 then FeatureFountain else if r == 1 then FeatureStatue
                         else if r == 2 then FeatureShrine else FeatureChest);
    }

    method ScatterFeatures(level: int, r: Rect) returns (ghost fs: seq<Feature>)
      requires HasLevel(level)
      modifies dungeon.Levels[level]
      ensures View(level) == old(View(level)).(features := old(dungeon.Levels[level].Features) + fs)
      ensures ScatterFits(r, fs)
    {
      fs := [];
      if r.maxX - r.minX < 2 || r.maxY - r.minY < 2 {
        return;
      }
      var l := dungeon.Levels[level];
      var placed := 0;
      var y := r.minY + 1;
      while y < r.maxY && placed < 3
        invariant r.minY < y && placed == |fs| <= 3
        invariant l.Stairs == old(l.Stairs) && l.Features == old(l.Features) + fs && ScatterFits(r, fs)
        invariant forall i :: 0 <= i < |fs| ==> fs[i].y < y
      {
        var x := r.minX + 1;
        while x < r.maxX && placed < 3
          invariant r.minX < x && placed == |fs| <= 3
          invariant l.Stairs == old(l.Stairs) && l.Features == old(l.Features) + fs && ScatterFits(r, fs)
          invariant forall i :: 0 <= i < |fs| ==> Before(fs[i].At(), Pos(x, y))
        {
          var roll := rnd.Intn(100);
          if roll < 8 {
            var f := RollFeature(x, y);
            l.Features := l.Features + [f];
            fs := fs + [f];
            placed := placed + 1;
          }
          x := x + 1;
        }
        y := y + 1;
      }
    }

    /** A random cell of the chamber wall on side dir. */
    method TryWall(r: Rect, dir: Direction) returns (x: int, y: int)
      requires r.minX <= r.maxX && r.minY <= r.maxY
      ensures OnWall(r, Pos(x, y), dir)
    {
      if dir.North? || dir.South? {
        var o := rnd.Intn(r.maxX - r.minX + 1);
        x, y := r.minX + o, if dir.North? then r.minY - 1 else r.maxY + 1;
      } else {
        var o := rnd.Intn(r.maxY - r.minY + 1);
        x, y := if dir.West? then r.minX - 1 else r.maxX + 1, r.minY + o;
      }
    }

    /** Up to six tries at a doorway on one wall; found says whether one fits at (x, y). */
    method FindDoorway(level: int, r: Rect, dir: Direction) returns (found: bool, x: int, y: int)
      requires HasLevel(level) && r.minX <= r.maxX && r.minY <= r.maxY
      ensures found ==> OnWall(r, Pos(x, y), dir) && DoorwayFits(View(level), Pos(x, y), dir)
      ensures !found ==> WallBlocked(View(level), r, dir)
    {
      hide Level.View, OnWall;
      var l := dungeon.Levels[level];
      found, x, y := false, 0, 0;
      var attempt := 0;
      while attempt < 6 && !found
        invariant attempt >= 0
        invariant found ==> OnWall(r, Pos(x, y), dir) && DoorwayFits(l.View(), Pos(x, y), dir)
        invariant attempt > 0 && !found ==> WallBlocked(l.View(), r, dir)
        decreases 6 - attempt, !found
      {
        x, y := TryWall(r, dir);
        var behind := l.At(x + dir.Dx(), y + dir.Dy());
        found := l.Carvable(x, y) && !l.At(x, y).0.Walkable() && behind.1 && !behind.0.Walkable();
        attempt := attempt + 1;
      }
    }

    /** Punches a doorway through one wall if it finds a place for it. */
    method PunchWall(level: int, r: Rect, dir: Direction, made: int) returns (found: bool, ghost e: Exit)
      requires HasLevel(level) && r.minX <= r.maxX && r.minY <= r.maxY
      modifies this`frontier, dungeon.Levels[level].Tiles
      ensures !found ==> View(level) == old(View(level)) && frontier == old(frontier) && WallBlocked(View(level), r, dir)
      ensures found ==>
                && e.dir == dir && OnWall(r, e.At(), dir) && DoorwayFits(old(View(level)), e.At(), dir)
                && (e.door.TileDoor? || (made > 0 && e.door.TileSecretDoor?))
                && View(level) == old(View(level)).Set(e.At(), e.door)
                && frontier == DungeonModel.Enqueue(old(frontier), Wide(level), High(level), level, e.At(), dir)
    {
      hide Level.View, LevelView.Set, OnWall, DoorwayFits, WallBlocked;
      var ok, ox, oy := FindDoorway(level, r, dir);
      found, e := ok, Exit(ox, oy, dir, TileDoor);
      if ok {
        var door := TileDoor;
        if made > 0 {
          var secret := rnd.Intn(6);
          if secret == 0 {
            door := TileSecretDoor;
          }
        }
        e := Exit(ox, oy, dir, door);
        dungeon.Levels[level].Set(ox, oy, door);
        Enqueue(level, ox, oy, dir);
      }
    }

    method ChamberExits(level: int, r: Rect, entryDir: Direction) returns (ghost exits: seq<Exit>)
      requires HasLevel(level) && r.minX <= r.maxX && r.minY <= r.maxY
      modifies this`frontier, dungeon.Levels[level].Tiles
      ensures ExitsFit(old(View(level)), r, entryDir, exits) && ExitsDue(old(View(level)), r, entryDir, exits)
      ensures View(level) == Punch(old(View(level)), exits)
      ensures frontier == EnqueueExits(old(frontier), Wide(level), High(level), level, exits)
    {
      hide Level.View, LevelView.Set, OnWall, DoorwayFits, ExitsFit, Punch, EnqueueExits, WallBlocked;
      NoExits(View(level), r, entryDir, frontier, level);
      var order := [North, South, West, East];
      var walls := rnd.Shuffle(order);
      ShuffledStaysDistinct(order, walls);
      var w := rnd.Intn(3);
      var want, made := 1 + w, 0;
      exits := [];
      var i := 0;
      while i < |walls| && made < want
        invariant 0 <= i <= |walls| && made == |exits| <= want <= 3
        invariant View(level) == Punch(old(View(level)), exits)
        invariant frontier == EnqueueExits(old(frontier), Wide(level), High(level), level, exits)
        invariant ExitsFit(old(View(level)), r, entryDir, exits)
        invariant forall j, k :: 0 <= j < |exits| && i <= k < |walls| ==> exits[j].dir != walls[k]
        invariant made == 0 ==> forall k :: 0 <= k < i && walls[k] != entryDir.Around() ==> WallBlocked(old(View(level)), r, walls[k])
      {
        if walls[i] != entryDir.Around() {
          var found, e := PunchWall(level, r, walls[i], made);
          if found {
            AddExit(old(View(level)), r, entryDir, exits, e);
            AddedExit(old(View(level)), exits, e, old(frontier), Wide(level), High(level), level);
            exits := exits + [e];
            made := made + 1;
          }
        }
        i := i + 1;
      }
      if made == 0 {
        EveryWallTried(old(View(level)), r, entryDir, order, walls);
      }
    }

    method TryChamber(xp: ExpansionPoint) returns (done: bool, ghost w: int, ghost h: int, ghost off: int,
                                                   ghost fs: seq<Feature>, ghost exits: seq<Exit>)
      requires HasLevel(xp.level)
      modifies this`frontier, dungeon.Levels[xp.level], dungeon.Levels[xp.level].Tiles
      ensures SideFits(opts.roomSize, w) && SideFits(opts.roomSize, h) && OffsetFits(xp.dir, w, h, off)
      ensures done <==> Placeable(old(View(xp.level)), RoomRect(xp, w, h, off))
      ensures !done ==> View(xp.level) == old(View(xp.level)) && frontier == old(frontier)
      ensures done ==> var r := RoomRect(xp, w, h, off);
                && ScatterFits(r, fs)
                && ExitsFit(ChamberShell(old(View(xp.level)), xp, r, fs), r, xp.dir, exits)
                && ExitsDue(ChamberShell(old(View(xp.level)), xp, r, fs), r, xp.dir, exits)
                && Patch(View(xp.level), frontier) == Chamber(old(View(xp.level)), old(frontier), xp, r, fs, exits)
    {
      hide Level.View, LevelView.Set, LevelView.Fill, Placeable, ScatterFits, ExitsFit, ExitsDue, Punch, EnqueueExits;
      var a := RollSide();
      var b := RollSide();
      w, h, fs, exits := a, b, [], [];
      var r, ok, o := PlaceableRect(xp, a, b);
      off := o;
      if !ok {
        return false, w, h, off, fs, exits;
      }
      done := true;
      var l := dungeon.Levels[xp.level];
      l.Set(xp.x + xp.dir.Dx(), xp.y + xp.dir.Dy(), TileDoor);
      l.Fill(r, TileFloor);
      fs := ScatterFeatures(xp.level, r);
      exits := ChamberExits(xp.level, r, xp.dir);
    }

    method GrowChamber(xp: ExpansionPoint) returns (ghost c: Choice)
      requires HasLevel(xp.level)
      modifies this`frontier, dungeon.Levels[xp.level], dungeon.Levels[xp.level].Tiles
      ensures c.GrowChamber? && ChamberFits(opts, old(View(xp.level)), xp, c)
      ensures var l, r := old(View(xp.level)), RoomRect(xp, c.w, c.h, c.off);
              Patch(View(xp.level), frontier) ==
                if Placeable(l, r) then Chamber(l, old(frontier), xp, r, c.fs, c.exits)
                else Passage(l, old(frontier), xp, c.length, c.turn)
    {
      hide Level.View, Placeable, ScatterFits, ExitsFit, ExitsDue, Chamber, Passage;
      var done, w, h, off, fs, exits := TryChamber(xp);
      c := Choice.GrowChamber(w, h, off, fs, exits, 0, Straight);
      if !done {
        var length, turn := GrowPassage(xp);
        c := Choice.GrowChamber(w, h, off, fs, exits, length, turn);
      }
    }

    /** A call that touched no level but k changes the state by a patch on level k. */
    twostate lemma OnlyLevelChanged(k: int)
      requires old(Valid()) && Valid() && dungeon.Levels == old(dungeon.Levels) && 0 <= k < |dungeon.Levels|
      requires budget == old(budget)
      requires dungeon.EntranceX == old(dungeon.EntranceX) && dungeon.EntranceY == old(dungeon.EntranceY)
      requires forall i :: 0 <= i < |dungeon.Levels| && i != k ==>
                 unchanged(dungeon.Levels[i]) && unchanged(dungeon.Levels[i].Tiles)
      ensures Abs() == WithPatch(old(Abs()), k, Patch(View(k), frontier))
    {
      hide Level.View;
      forall i | 0 <= i < |dungeon.Levels| && i != k ensures dungeon.Levels[i].View() == old(dungeon.Levels[i].View()) {}
      assert Views(dungeon.Levels) == old(Views(dungeon.Levels))[k := View(k)];
    }

    /** Appends a fresh level with a landing at its centre. */
    method AddLevel(depth: int) returns (child: Level, x: int, y: int)
      requires Valid()
      modifies this`frontier, dungeon`Levels
      ensures Valid() && fresh(child) && fresh(child.Tiles) && dungeon.Levels == old(dungeon.Levels) + [child]
      ensures child.Valid() && child.View() == Landing(NewLevel(depth, opts.levelWidth, opts.levelHeight))
      ensures Pos(x, y) == Centre(opts.levelWidth, opts.levelHeight)
      ensures frontier == old(frontier) + LandingPoints(opts.levelWidth, opts.levelHeight, |old(dungeon.Levels)|)
    {
      hide Level.View, LevelView.Set, LandingAt, LandingPointsAt, Clamped, NewLevel;
      var n := |dungeon.Levels|;
      child := new Level(depth, opts.levelWidth, opts.levelHeight);
      dungeon.Levels := dungeon.Levels + [child];
      x, y := CarveLanding(n, child.Width / 2, child.Height / 2);
    }

    /** The entrance level of a generator that has none yet. */
    method CarveEntrance()
      requires Valid() && dungeon.Levels == [] && frontier == [] && budget == StartBudget(opts)
      modifies this`frontier, dungeon
      ensures Valid() && AllFresh(dungeon) && Abs() == Init(opts)
    {
      hide Level.View, Views, Landing, NewLevel, LandingPoints, Centre, StartBudget;
      var l, ex, ey := AddLevel(0);
      dungeon.EntranceX, dungeon.EntranceY := ex, ey;
      assert dungeon.Levels == [l];
      OneView(l);
    }

    /** Appends the level below level parent, with a stair up at its centre. */
    method AddChild(depth: int, parent: int)
      requires Valid()
      modifies this`frontier, dungeon`Levels
      ensures Valid() && |dungeon.Levels| == |old(dungeon.Levels)| + 1
      ensures dungeon.Levels[..|old(dungeon.Levels)|] == old(dungeon.Levels)
      ensures fresh(dungeon.Levels[|old(dungeon.Levels)|]) && fresh(dungeon.Levels[|old(dungeon.Levels)|].Tiles)
      ensures dungeon.Levels[|old(dungeon.Levels)|].View() == Child(depth, opts.levelWidth, opts.levelHeight, parent)
      ensures frontier == old(frontier) + LandingPoints(opts.levelWidth, opts.levelHeight, |old(dungeon.Levels)|)
    {
      hide Level.View, LevelView.Set, LevelView.Fill, Landing, LandingPoints, Centre, NewLevel;
      LandingHasNoStairs(depth, opts.levelWidth, opts.levelHeight);
      var child, cx, cy := AddLevel(depth);
      child.Set(cx, cy, TileStairsUp);
      child.AddStair(Stair(cx, cy, StairUp, parent));
    }

    /** Digs a stair down at (x, y). */
    method DigStair(level: int, x: int, y: int, to: int)
      requires HasLevel(level)
      modifies dungeon.Levels[level], dungeon.Levels[level].Tiles
      ensures View(level) == WithStair(old(View(level)), Pos(x, y), to)
    {
      hide Level.View, LevelView.Set;
      dungeon.Levels[level].Set(x, y, TileStairsDown);
      dungeon.Levels[level].AddStair(Stair(x, y, StairDown, to));
    }

    method GrowStairs(xp: ExpansionPoint)
      requires Valid() && 0 <= xp.level < |dungeon.Levels|
      modifies this`frontier, dungeon`Levels, dungeon.Levels[xp.level], dungeon.Levels[xp.level].Tiles
      ensures Valid() && Abs() == Descend(opts, old(Abs()), xp)
      ensures KeepsLevels()
    {
      hide Level.View, LevelView.Set, Child, LandingPoints, Views, WithStair;
      var l := dungeon.Levels[xp.level];
      var sx, sy := xp.x + xp.dir.Dx(), xp.y + xp.dir.Dy();
      if |dungeon.Levels| < opts.maxLevels && l.Carvable(sx, sy) {
        ghost var s := Abs();
        DigStairAndChild(xp.level, sx, sy);
        DescendIs(opts, s, xp, Abs());
      }
    }

    /** A stair down at (x, y) on level k and the level below it. */
    method DigStairAndChild(k: int, x: int, y: int)
      requires Valid() && 0 <= k < |dungeon.Levels|
      modifies this`frontier, dungeon`Levels, dungeon.Levels[k], dungeon.Levels[k].Tiles
      ensures Valid() && KeepsLevels() && |dungeon.Levels| == |old(dungeon.Levels)| + 1
      ensures Views(dungeon.Levels) == old(Views(dungeon.Levels))[k := WithStair(old(View(k)), Pos(x, y), |old(dungeon.Levels)|)]
                + [Child(old(View(k)).depth + 1, opts.levelWidth, opts.levelHeight, k)]
      ensures frontier == old(frontier) + LandingPoints(opts.levelWidth, opts.levelHeight, |old(dungeon.Levels)|)
    {
      hide Level.View, LevelView.Set, Child, LandingPoints, Views;
      var n := |dungeon.Levels|;
      var depth := dungeon.Levels[k].Depth;
      DigStair(k, x, y, n);
      AddChild(depth + 1, k);
      LevelsGrew(k);
    }

    /** The levels after a staircase: one rewritten, one appended, the rest as they were. */
    twostate lemma LevelsGrew(k: int)
      requires old(Valid()) && Valid() && 0 <= k < |old(dungeon.Levels)|
      requires |dungeon.Levels| == |old(dungeon.Levels)| + 1
      requires dungeon.Levels[..|old(dungeon.Levels)|] == old(dungeon.Levels)
      requires forall i :: 0 <= i < |old(dungeon.Levels)| && i != k ==>
                 unchanged(old(dungeon.Levels)[i]) && unchanged(old(dungeon.Levels)[i].Tiles)
      ensures Views(dungeon.Levels) == old(Views(dungeon.Levels))[k := View(k)] + [View(|old(dungeon.Levels)|)]
    {
      hide Level.View;
      var n := |old(dungeon.Levels)|;
      forall i | 0 <= i < n ensures dungeon.Levels[i] == old(dungeon.Levels)[i] {
        assert dungeon.Levels[..n][i] == dungeon.Levels[i];
      }
      forall i | 0 <= i < n && i != k ensures dungeon.Levels[i].View() == old(dungeon.Levels[i].View()) {}
    }

    /** Whether there is nothing to grow at xp. */
    method PointIsSpent(xp: ExpansionPoint) returns (spent: bool)
      requires HasLevel(xp.level)
      ensures spent <==> IsSpent(View(xp.level), xp)
    {
      hide Level.View;
      var l := dungeon.Levels[xp.level];
      var ahead := l.At(xp.x + xp.dir.Dx(), xp.y + xp.dir.Dy());
      spent := !l.InBounds(xp.x, xp.y) || (ahead.1 && ahead.0.Walkable());
    }

    /** Grows one expansion point, by a choice the growth machine allows. */
    method Grow(xp: ExpansionPoint) returns (ghost c: Choice)
      requires Valid() && 0 <= xp.level < |dungeon.Levels|
      modifies this`frontier, dungeon`Levels, dungeon.Levels[xp.level], dungeon.Levels[xp.level].Tiles
      ensures Valid() && KeepsLevels()
      ensures Allowed(opts, old(Abs()), xp, c) && Abs() == DungeonGrowth.Grow(opts, old(Abs()), xp, c)
    {
      hide Level.View, Views, DungeonGrowth.Grow, ChamberFits, VaultFits, LengthFits, Allowed, IsSpent;
      ghost var s := Abs();
      var spent := PointIsSpent(xp);
      c := Spent;
      if spent {
        SpentIsAllowed(opts, s, xp);
        GrowNothing(opts, s, xp, c);
        return;
      }
      var crowded := |frontier| >= FRONTIER_SOFT_CAP;
      var roll := rnd.Intn(100);
      if roll < 55 || (crowded && roll < 95) {
        c := PassageStep(xp);
      } else if roll < 60 {
        c := DeadEndStep(xp, crowded);
      } else if roll < 92 && !crowded {
        c := ChamberStep(xp);
      } else if !crowded {
        c := StairsStep(xp);
      } else {
        c := PassageStep(xp);
      }
      ChoiceIsAllowed(opts, s, xp, c);
    }

    method DeadEndStep(xp: ExpansionPoint, crowded: bool) returns (ghost c: Choice)
      requires Valid() && 0 <= xp.level < |dungeon.Levels|
      modifies dungeon.Levels[xp.level], dungeon.Levels[xp.level].Tiles
      ensures c.DeadEnd? || (c.GrowVault? && !crowded && VaultFits(old(View(xp.level)), xp, c))
      ensures Abs() == DungeonGrowth.Grow(opts, old(Abs()), xp, c)
    {
      hide Level.View, Views, DungeonGrowth.Grow, VaultFits;
      c := DeadEnd;
      GrowNothing(opts, Abs(), xp, c);
      if !crowded {
        var coin := rnd.Intn(4);
        if coin == 0 {
          c := VaultStep(xp);
        }
      }
    }

    method StairsStep(xp: ExpansionPoint) returns (ghost c: Choice)
      requires Valid() && 0 <= xp.level < |dungeon.Levels|
      modifies this`frontier, dungeon`Levels, dungeon.Levels[xp.level], dungeon.Levels[xp.level].Tiles
      ensures Valid() && KeepsLevels() && c.GrowStairs?
      ensures Abs() == DungeonGrowth.Grow(opts, old(Abs()), xp, c)
    {
      hide Level.View, Views, Descend;
      c := Choice.GrowStairs;
      GrowStairs(xp);
    }

    method PassageStep(xp: ExpansionPoint) returns (ghost c: Choice)
      requires Valid() && 0 <= xp.level < |dungeon.Levels|
      modifies this`frontier, dungeon.Levels[xp.level].Tiles
      ensures c.GrowPassage? && LengthFits(c.length)
      ensures Abs() == DungeonGrowth.Grow(opts, old(Abs()), xp, c)
    {
      hide Level.View, Views, Passage;
      var length, turn := GrowPassage(xp);
      c := Choice.GrowPassage(length, turn);
      OnlyLevelChanged(xp.level);
    }

    method VaultStep(xp: ExpansionPoint) returns (ghost c: Choice)
      requires Valid() && 0 <= xp.level < |dungeon.Levels|
      modifies dungeon.Levels[xp.level], dungeon.Levels[xp.level].Tiles
      ensures c.GrowVault? && VaultFits(old(View(xp.level)), xp, c)
      ensures Abs() == DungeonGrowth.Grow(opts, old(Abs()), xp, c)
    {
      hide Level.View, Views, Vault, Placeable;
      var done, w, h, off, extra := GrowSecretRoom(xp);
      c := Choice.GrowVault(w, h, off, extra);
      OnlyLevelChanged(xp.level);
    }

    method ChamberStep(xp: ExpansionPoint) returns (ghost c: Choice)
      requires Valid() && 0 <= xp.level < |dungeon.Levels|
      modifies this`frontier, dungeon.Levels[xp.level], dungeon.Levels[xp.level].Tiles
      ensures c.GrowChamber? && ChamberFits(opts, old(View(xp.level)), xp, c)
      ensures Abs() == DungeonGrowth.Grow(opts, old(Abs()), xp, c)
    {
      hide Level.View, Views, Chamber, Passage, Placeable;
      c := GrowChamber(xp);
      OnlyLevelChanged(xp.level);
    }

    /** One turn of the main loop. */
    method StepOnce() returns (ghost c: Choice)
      requires Valid() && Sound(opts, Abs()) && Running(Abs())
      modifies this, dungeon, dungeon.Levels, set l | l in dungeon.Levels :: l.Tiles
      ensures Valid() && KeepsLevels()
      ensures Step(opts, old(Abs()), c, Abs())
    {
      hide Level.View, Views, DungeonGrowth.Grow, Sound, Allowed;
      NextPoint(opts, Abs());
      var xp := Take();
      c := Grow(xp);
    }

    /** One turn, from a state some run reaches to another. */
    method Turn()
      requires Valid() && Reachable(opts, Abs()) && Running(Abs())
      modifies this, dungeon, dungeon.Levels, set l | l in dungeon.Levels :: l.Tiles
      ensures Valid() && KeepsLevels() && Reachable(opts, Abs()) && budget < old(budget)
    {
      hide Level.View, Views, Sound, Step, Reachable;
      ghost var before := Abs();
      ReachableSound(opts, before);
      var c := StepOnce();
      StepPays(opts, before, c, Abs());
      StepIsReachable(opts, before, c, Abs());
    }

    /** The main loop: grows until the frontier or the budget is used up. */
    method Run()
      requires Valid() && Reachable(opts, Abs())
      modifies this, dungeon, dungeon.Levels, set l | l in dungeon.Levels :: l.Tiles
      ensures Valid() && KeepsLevels() && Generated(opts, Abs())
    {
      hide Level.View, Views, Reachable;
      while |frontier| > 0 && budget > 0
        invariant Valid() && KeepsLevels() && Reachable(opts, Abs())
        decreases budget
      {
        Turn();
      }
    }
  }

  method DefaultBudget(o: Options) returns (budget: int)
    ensures budget == StartBudget(o)
  {
    budget := o.growthBudget;
    if budget <= 0 {
      budget := o.levelWidth * o.levelHeight / 25;
      if budget < 8 {
        budget := 8;
      }
    }
  }

  /** The generator with the entrance level carved. */
  method Start(o: Options, rnd: Rand) returns (g: Generator)
    requires ValidOptions(o)
    ensures g.Valid() && g.opts == o && fresh(g) && fresh(g.dungeon) && AllFresh(g.dungeon) && g.Abs() == Init(o)
  {
    hide Level.View, Views, Init, StartBudget;
    var budget := DefaultBudget(o);
    g := new Generator(o, rnd, budget);
    g.CarveEntrance();
  }

  lemma OneView(l: Level)
    requires l.Valid()
    ensures Views([l]) == [l.View()]
  {
  }

  /** Builds a dungeon; null for a malformed request.  Whatever is drawn, the result is
      the end of a run of the growth machine. */
  method Generate(o: Options, rnd: Rand?) returns (d: Dungeon?, ghost s: State)
    ensures d == null <==> o.levelWidth <= 0 || o.levelHeight <= 0 || o.maxLevels < 1 || rnd == null
    ensures d != null ==> fresh(d) && (forall i :: 0 <= i < |d.Levels| ==> d.Levels[i].Valid())
    ensures d != null ==> Generated(o, s) && Views(d.Levels) == s.levels && Pos(d.EntranceX, d.EntranceY) == s.entrance
  {
    hide Level.View, Views, Init, Generated, Reachable;
    s := State([], [], 0, Pos(0, 0));
    if !ValidOptions(o) || rnd == null {
      return null, s;
    }
    var g := Start(o, rnd);
    InitIsReachable(o);
    g.Run();
    d, s := g.dungeon, g.Abs();
  }
}
