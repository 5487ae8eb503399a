/** The run of a generator as a state machine.  A Choice is everything one growth
    step draws at random; a run is any sequence of choices the code can make. */
module DungeonGrowth {
  import opened Paths
  import opened DungeonModel

  datatype State = State(levels: seq<LevelView>, frontier: seq<ExpansionPoint>, budget: int, entrance: Pos)

  datatype Choice =
    | Spent
    | DeadEnd
    | GrowPassage(length: int, turn: Turn)
    | GrowVault(w: int, h: int, off: int, extra: seq<Feature>)
    | GrowChamber(w: int, h: int, off: int, fs: seq<Feature>, exits: seq<Exit>, length: int, turn: Turn)
    | GrowStairs

  predicate ValidOptions(o: Options) {
    o.levelWidth > 0 && o.levelHeight > 0 && o.maxLevels >= 1
  }

  function StartBudget(o: Options): int {
    if o.growthBudget > 0 then o.growthBudget
    else var b := o.levelWidth * o.levelHeight / 25; if b < 8 then 8 else b
  }

  function Init(o: Options): State
    requires ValidOptions(o)
  {
    var l := Landing(NewLevel(0, o.levelWidth, o.levelHeight));
    State([l], LandingPoints(o.levelWidth, o.levelHeight, 0), StartBudget(o), Centre(o.levelWidth, o.levelHeight))
  }

  /** Taking the oldest expansion point off the frontier costs one unit of budget. */
  function Pop(s: State): State
    requires s.frontier != []
  {
    s.(frontier := s.frontier[1..], budget := s.budget - 1)
  }

  predicate OnLevel(s: State, xp: ExpansionPoint) { 0 <= xp.level < |s.levels| }

  /** There is nothing to grow: the point is off the map or already opened ahead. */
  predicate IsSpent(l: LevelView, xp: ExpansionPoint) {
    !l.InBounds(xp.At()) || l.Walkable(xp.Ahead())
  }

  predicate Crowded(s: State) { |s.frontier| >= FRONTIER_SOFT_CAP }

  ghost predicate ChamberFits(o: Options, l: LevelView, xp: ExpansionPoint, c: Choice)
    requires c.GrowChamber?
  {
    && SideFits(o.roomSize, c.w) && SideFits(o.roomSize, c.h) && OffsetFits(xp.dir, c.w, c.h, c.off)
    && var r := RoomRect(xp, c.w, c.h, c.off);
       if Placeable(l, r)
       then ScatterFits(r, c.fs) && ExitsFit(ChamberShell(l, xp, r, c.fs), r, xp.dir, c.exits)
            && ExitsDue(ChamberShell(l, xp, r, c.fs), r, xp.dir, c.exits)
       else LengthFits(c.length)
  }

  ghost predicate VaultFits(l: LevelView, xp: ExpansionPoint, c: Choice)
    requires c.GrowVault?
  {
    && 2 <= c.w <= 4 && 2 <= c.h <= 4 && OffsetFits(xp.dir, c.w, c.h, c.off)
    && var r := RoomRect(xp, c.w, c.h, c.off);
       Placeable(l, r) ==> VaultExtraFits(r, c.extra)
  }

  /** The choices open to a step that grows xp in state s (xp already popped). */
  ghost predicate Allowed(o: Options, s: State, xp: ExpansionPoint, c: Choice)
    requires OnLevel(s, xp)
  {
    var l := s.levels[xp.level];
    && (c.Spent? <==> IsSpent(l, xp))
    && (!c.Spent? && Crowded(s) ==> c.GrowPassage?)
    && (c.GrowPassage? ==> LengthFits(c.length))
    && (c.GrowVault? ==> VaultFits(l, xp, c))
    && (c.GrowChamber? ==> ChamberFits(o, l, xp, c))
  }

  function WithPatch(s: State, k: int, p: Patch): State
    requires 0 <= k < |s.levels|
  {
    s.(levels := s.levels[k := p.level], frontier := p.frontier)
  }

  /** The level below: a landing whose centre is a staircase back up. */
  function Child(depth: int, w: int, h: int, parent: int): LevelView {
    var c := Centre(w, h);
    Landing(NewLevel(depth, w, h)).Set(c, TileStairsUp).(stairs := [Stair(c.x, c.y, StairUp, parent)])
  }

  function Descend(o: Options, s: State, xp: ExpansionPoint): State
    requires OnLevel(s, xp)
  {
    var l := s.levels[xp.level];
    var p := xp.Ahead();
    if |s.levels| >= o.maxLevels || !l.Carvable(p) then s
    else
      var child := Child(l.depth + 1, o.levelWidth, o.levelHeight, xp.level);
      s.(levels := s.levels[xp.level := WithStair(l, p, |s.levels|)] + [child],
         frontier := s.frontier + LandingPoints(o.levelWidth, o.levelHeight, |s.levels|))
  }

  /** One growth step. */
  ghost function Grow(o: Options, s: State, xp: ExpansionPoint, c: Choice): State
    requires OnLevel(s, xp)
  {
    var l := s.levels[xp.level];
    match c
    case Spent => s
    case DeadEnd => s
    case GrowPassage(length, turn) =>
      WithPatch(s, xp.level, Passage(l, s.frontier, xp, length, turn))
    case GrowVault(w, h, off, extra) =>
      var r := RoomRect(xp, w, h, off);
      if Placeable(l, r) then WithPatch(s, xp.level, Patch(Vault(l, xp, r, extra), s.frontier)) else s
    case GrowChamber(w, h, off, fs, exits, length, turn) =>
      var r := RoomRect(xp, w, h, off);
      WithPatch(s, xp.level, if Placeable(l, r) then Chamber(l, s.frontier, xp, r, fs, exits)
                             else Passage(l, s.frontier, xp, length, turn))
    case GrowStairs => Descend(o, s, xp)
  }

  predicate Running(s: State) { s.frontier != [] && s.budget > 0 }

  /** One turn of the main loop may take s to t. */
  ghost predicate Step(o: Options, s: State, c: Choice, t: State) {
    && Running(s)
    && OnLevel(Pop(s), s.frontier[0])
    && Allowed(o, Pop(s), s.frontier[0], c)
    && t == Grow(o, Pop(s), s.frontier[0], c)
  }

  /** The states the main loop passes through, one choice between each two. */
  ghost predicate IsTrace(o: Options, states: seq<State>, choices: seq<Choice>) {
    && |states| == |choices| + 1
    && forall i {:trigger choices[i]} :: 0 <= i < |choices| ==> Step(o, states[i], choices[i], states[i + 1])
  }

  /** A run: a trace from the entrance landing. */
  ghost predicate IsRun(o: Options, states: seq<State>, choices: seq<Choice>) {
    ValidOptions(o) && IsTrace(o, states, choices) && states[0] == Init(o)
  }

  /** Some run reaches s. */
  ghost predicate Reachable(o: Options, s: State) {
    exists states: seq<State>, choices: seq<Choice> :: IsRun(o, states, choices) && states[|choices|] == s
  }

  /** Some run reaches s and stops there: the frontier or the budget is used up. */
  ghost predicate Generated(o: Options, s: State) {
    Reachable(o, s) && !Running(s)
  }
}
