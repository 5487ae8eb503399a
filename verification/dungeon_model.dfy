/** The dungeon as values: tiles, levels, and what each carving operation does
    to a level.  The classes in dungeon_generator.dfy are proved against these. */
module DungeonModel {
  import opened Paths
  import opened RowMajor

  datatype TileType = TileRock | TileFloor | TileDoor | TileStairsUp | TileStairsDown | TileSecretDoor {
    predicate Walkable() { !TileRock? }
  }

  datatype FeatureKind = FeatureNone | FeatureFountain | FeatureStatue | FeatureShrine | FeatureChest {
    predicate IsValid() { !FeatureNone? }
  }

  datatype Feature = Feature(x: int, y: int, kind: FeatureKind) {
    function At(): Pos { Pos(x, y) }
  }

  datatype StairDir = StairUp | StairDown

  datatype Stair = Stair(x: int, y: int, dir: StairDir, toLevel: int) {
    function At(): Pos { Pos(x, y) }
  }

  datatype Direction = North | East | South | West {
    function Dx(): int { match this case East => 1 case West => -1 case _ => 0 }
    function Dy(): int { match this case North => -1 case South => 1 case _ => 0 }
    function Left(): Direction { match this case North => West case East => North case South => East case West => South }
    function Right(): Direction { match this case North => East case East => South case South => West case West => North }
    function Around(): Direction { match this case North => South case East => West case South => North case West => East }
    function Ahead(p: Pos): Pos { Pos(p.x + Dx(), p.y + Dy()) }
  }

  datatype RoomSize = RoomSizeAverage | RoomSizeCramped | RoomSizeHuge

  datatype Options = Options(levelWidth: int, levelHeight: int, maxLevels: int, growthBudget: int, roomSize: RoomSize)

  datatype ExpansionPoint = ExpansionPoint(level: int, x: int, y: int, dir: Direction) {
    function At(): Pos { Pos(x, y) }
    function Ahead(): Pos { dir.Ahead(At()) }
  }

  const FRONTIER_SOFT_CAP := 120

  /** In bounds of a w*h level with a one-cell margin from every edge. */
  predicate CarvableIn(w: int, h: int, p: Pos) {
    1 <= p.x < w - 1 && 1 <= p.y < h - 1
  }

  /** One level as a value. */
  datatype LevelView = LevelView(depth: int, width: int, height: int, tiles: map<Pos, TileType>,
                                 features: seq<Feature>, stairs: seq<Stair>)
  {
    predicate InBounds(p: Pos) { 0 <= p.x < width && 0 <= p.y < height }

    predicate Carvable(p: Pos) { CarvableIn(width, height, p) }

    ghost predicate Shaped() { forall p :: p in tiles <==> InBounds(p) }

    function At(p: Pos): TileType { if p in tiles then tiles[p] else TileRock }

    predicate Walkable(p: Pos) { At(p).Walkable() }

    /** A write out of bounds does nothing. */
    function Set(p: Pos, t: TileType): LevelView {
      if p in tiles then this.(tiles := tiles[p := t]) else this
    }

    function Fill(r: Rect, t: TileType): LevelView {
      this.(tiles := map p | p in tiles :: if r.Has(p) then t else tiles[p])
    }

    /** The walkable cells. */
    function Open(): set<Pos> { set p | p in tiles && tiles[p].Walkable() }
  }

  function NewLevel(depth: int, w: int, h: int): LevelView {
    LevelView(depth, w, h, map p | p in Cells(w, h) :: TileRock, [], [])
  }

  function Clamp(v: int, lo: int, hi: int): int {
    if v < lo then lo else if v > hi then hi else v
  }

  /** The point of a level of this size nearest (x, y) that leaves room for a landing. */
  function Clamped(w: int, h: int, x: int, y: int): Pos {
    Pos(Clamp(x, 2, w - 3), Clamp(y, 2, h - 3))
  }

  /** Where a party arrives on a level of this size: the clamped centre. */
  function Centre(w: int, h: int): Pos { Clamped(w, h, w / 2, h / 2) }

  function LandingRect(c: Pos): Rect { Rect(c.x - 1, c.y - 1, c.x + 1, c.y + 1) }

  function LandingAt(l: LevelView, c: Pos): LevelView { l.Fill(LandingRect(c), TileFloor) }

  function Landing(l: LevelView): LevelView { LandingAt(l, Centre(l.width, l.height)) }

  const COMPASS := [North, East, South, West]

  /** The expansion points a landing around c seeds, for the first n compass directions. */
  function LandingPointsAt(w: int, h: int, c: Pos, level: int, n: nat): seq<ExpansionPoint>
    requires n <= 4
  {
    if n == 0 then [] else
    var d := COMPASS[n - 1];
    var e := d.Ahead(c);
    LandingPointsAt(w, h, c, level, n - 1) +
      (if CarvableIn(w, h, d.Ahead(e)) then [ExpansionPoint(level, e.x, e.y, d)] else [])
  }

  function LandingPoints(w: int, h: int, level: int): seq<ExpansionPoint> {
    LandingPointsAt(w, h, Centre(w, h), level, |COMPASS|)
  }

  /** Appends an expansion point unless the frontier is at its hard ceiling or
      the cell is not carvable on a w*h level. */
  function Enqueue(f: seq<ExpansionPoint>, w: int, h: int, level: int, p: Pos, dir: Direction): seq<ExpansionPoint> {
    if |f| >= FRONTIER_SOFT_CAP * 3 || !CarvableIn(w, h, p) then f
    else f + [ExpansionPoint(level, p.x, p.y, dir)]
  }

  function EnqueueAll(f: seq<ExpansionPoint>, w: int, h: int, level: int, p: Pos, dirs: seq<Direction>): seq<ExpansionPoint>
    decreases |dirs|
  {
    if dirs == [] then f
    else EnqueueAll(Enqueue(f, w, h, level, p, dirs[0]), w, h, level, p, dirs[1..])
  }

  /** The k-th cell straight ahead of p. */
  function Along(p: Pos, dir: Direction, k: int): Pos {
    match dir
    case North => Pos(p.x, p.y - k)
    case East => Pos(p.x + k, p.y)
    case South => Pos(p.x, p.y + k)
    case West => Pos(p.x - k, p.y)
  }

  /** Digs forward from p for up to n cells; the second result is where it stops. */
  function Corridor(l: LevelView, p: Pos, dir: Direction, n: int): (LevelView, Pos)
    decreases if n < 0 then 0 else n
  {
    var q := dir.Ahead(p);
    if n <= 0 || !l.Carvable(q) then (l, p)
    else if l.Walkable(q) then (l, q)
    else Corridor(l.Set(q, TileFloor), q, dir, n - 1)
  }

  /** Which ways a passage goes on. */
  datatype Turn = Straight | Bend(right: bool) | SidePassage(right: bool) | Tee

  function Heads(t: Turn, dir: Direction): seq<Direction> {
    match t
    case Straight => [dir]
    case Bend(right) => [if right then dir.Right() else dir.Left()]
    case SidePassage(right) => [dir, if right then dir.Right() else dir.Left()]
    case Tee => [dir.Left(), dir.Right()]
  }

  /** The effect of one growth step on the level it happens on and on the frontier. */
  datatype Patch = Patch(level: LevelView, frontier: seq<ExpansionPoint>)

  function Passage(l: LevelView, f: seq<ExpansionPoint>, xp: ExpansionPoint, length: int, turn: Turn): Patch {
    var (dug, end) := Corridor(l, xp.At(), xp.dir, length);
    if end == xp.At() then Patch(l, f)
    else Patch(dug, EnqueueAll(f, l.width, l.height, xp.level, end, Heads(turn, xp.dir)))
  }

  /** A w*h room one cell past the door ahead of xp, slid sideways by off. */
  function RoomRect(xp: ExpansionPoint, w: int, h: int, off: int): Rect {
    var door := xp.Ahead();
    var a := xp.dir.Ahead(door);
    match xp.dir
    case East => Rect(a.x, door.y - off, a.x + w - 1, door.y - off + h - 1)
    case West => Rect(a.x - w + 1, door.y - off, a.x, door.y - off + h - 1)
    case South => Rect(door.x - off, a.y, door.x - off + w - 1, a.y + h - 1)
    case North => Rect(door.x - off, a.y - h + 1, door.x - off + w - 1, a.y)
  }

  /** A level with a stair down dug at p. */
  function WithStair(l: LevelView, p: Pos, to: int): LevelView {
    l.Set(p, TileStairsDown).(stairs := l.stairs + [Stair(p.x, p.y, StairDown, to)])
  }

  /** How far a room may slide sideways: less than its span across the heading. */
  predicate OffsetFits(dir: Direction, w: int, h: int, off: int) {
    0 <= off < if dir.East? || dir.West? then h else w
  }

  /** Every cell of the padded rectangle is carvable rock. */
  ghost predicate Placeable(l: LevelView, r: Rect) {
    forall p :: r.Padded().Has(p) ==> l.Carvable(p) && !l.Walkable(p)
  }

  /** A vault: a secret door, a floor, a chest in the middle and perhaps a second feature. */
  function VaultChest(r: Rect): Feature {
    Feature((r.minX + r.maxX) / 2, (r.minY + r.maxY) / 2, FeatureChest)
  }

  predicate VaultExtraFits(r: Rect, extra: seq<Feature>) {
    && |extra| <= 1
    && (|extra| == 1 ==>
          && r.Has(extra[0].At()) && extra[0].At() != VaultChest(r).At()
          && (extra[0].kind.FeatureShrine? || extra[0].kind.FeatureStatue?))
  }

  function Vault(l: LevelView, xp: ExpansionPoint, r: Rect, extra: seq<Feature>): LevelView {
    var dug := l.Set(xp.Ahead(), TileSecretDoor).Fill(r, TileFloor);
    dug.(features := l.features + [VaultChest(r)] + extra)
  }

  /** p comes before q in the row-by-row order. */
  predicate Before(p: Pos, q: Pos) { p.y < q.y || (p.y == q.y && p.x < q.x) }

  /** What scattering features over a chamber may leave: at most three, strictly
      inside the chamber, in row order, one to a cell. */
  predicate ScatterFits(r: Rect, fs: seq<Feature>) {
    && |fs| <= 3
    && (forall i :: 0 <= i < |fs| ==> r.minX < fs[i].x < r.maxX && r.minY < fs[i].y < r.maxY && fs[i].kind.IsValid())
    && (forall i, j :: 0 <= i < j < |fs| ==> Before(fs[i].At(), fs[j].At()))
  }

  /** A doorway punched through the wall a chamber has on side dir. */
  datatype Exit = Exit(x: int, y: int, dir: Direction, door: TileType) {
    function At(): Pos { Pos(x, y) }
  }

  predicate OnWall(r: Rect, p: Pos, dir: Direction) {
    match dir
    case North => r.minX <= p.x <= r.maxX && p.y == r.minY - 1
    case South => r.minX <= p.x <= r.maxX && p.y == r.maxY + 1
    case West => p.x == r.minX - 1 && r.minY <= p.y <= r.maxY
    case East => p.x == r.maxX + 1 && r.minY <= p.y <= r.maxY
  }

  /** The cell takes a doorway: carvable rock with rock in bounds behind it. */
  predicate DoorwayFits(l: LevelView, p: Pos, dir: Direction) {
    && l.Carvable(p) && !l.Walkable(p)
    && l.InBounds(dir.Ahead(p)) && !l.Walkable(dir.Ahead(p))
  }

  function Punch(l: LevelView, exits: seq<Exit>): LevelView {
    if exits == [] then l else
    var e := exits[|exits| - 1];
    Punch(l, exits[..|exits| - 1]).Set(e.At(), e.door)
  }

  function EnqueueExits(f: seq<ExpansionPoint>, w: int, h: int, level: int, exits: seq<Exit>): seq<ExpansionPoint> {
    if exits == [] then f else
    var e := exits[|exits| - 1];
    Enqueue(EnqueueExits(f, w, h, level, exits[..|exits| - 1]), w, h, level, e.At(), e.dir)
  }

  /** Exits a chamber may get: at most three, on different walls and never on the
      entry wall, each fitting where the earlier ones left it; the first one is
      never secret. */
  ghost predicate ExitsFit(l: LevelView, r: Rect, entry: Direction, exits: seq<Exit>) {
    && |exits| <= 3
    && (forall i, j :: 0 <= i < j < |exits| ==> exits[i].dir != exits[j].dir)
    && (forall i :: 0 <= i < |exits| ==>
          && exits[i].dir != entry.Around()
          && OnWall(r, exits[i].At(), exits[i].dir)
          && DoorwayFits(Punch(l, exits[..i]), exits[i].At(), exits[i].dir)
          && (exits[i].door.TileDoor? || (i > 0 && exits[i].door.TileSecretDoor?)))
  }

  /** Some cell of the chamber's wall on side dir takes no doorway. */
  ghost predicate WallBlocked(l: LevelView, r: Rect, dir: Direction) {
    exists p :: OnWall(r, p, dir) && !DoorwayFits(l, p, dir)
  }

  /** A chamber goes without exits only when no wall but the entry wall takes a doorway
      anywhere along it. */
  ghost predicate ExitsDue(l: LevelView, r: Rect, entry: Direction, exits: seq<Exit>) {
    exits == [] ==> forall dir: Direction :: dir != entry.Around() ==> WallBlocked(l, r, dir)
  }

  /** A chamber before its exits: the door, the floor and the scattered features. */
  function ChamberShell(l: LevelView, xp: ExpansionPoint, r: Rect, fs: seq<Feature>): LevelView {
    var dug := l.Set(xp.Ahead(), TileDoor).Fill(r, TileFloor);
    dug.(features := l.features + fs)
  }

  function Chamber(l: LevelView, f: seq<ExpansionPoint>, xp: ExpansionPoint, r: Rect,
                   fs: seq<Feature>, exits: seq<Exit>): Patch
  {
    var shell := ChamberShell(l, xp, r, fs);
    Patch(Punch(shell, exits), EnqueueExits(f, l.width, l.height, xp.level, exits))
  }

  /** A side of a chamber for this room size. */
  predicate SideFits(size: RoomSize, n: int) {
    match size
    case RoomSizeCramped => 1 <= n <= 6
    case RoomSizeAverage => 2 <= n <= 6
    case RoomSizeHuge => 2 <= n <= 9
  }

  predicate LengthFits(n: int) { n == 6 || n == 12 || n == 18 || n == 24 || n == 30 }
}
