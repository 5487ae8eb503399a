/** A level as the generator mutates it: a row-major tile array with features and
    stairs beside it. */
module DungeonLevel {
  import opened Paths
  import opened RowMajor
  import opened DungeonModel

  /** A fill that has swept r as far as (x, y). */
  function FillTo(l: LevelView, r: Rect, x: int, y: int, t: TileType): LevelView {
    l.(tiles := map p | p in l.tiles :: if r.Swept(x, y, p) then t else l.tiles[p])
  }

  lemma FillStep(l: LevelView, r: Rect, x: int, y: int, t: TileType)
    requires r.Has(Pos(x, y))
    ensures FillTo(l, r, x, y, t).Set(Pos(x, y), t) == FillTo(l, r, x + 1, y, t)
  {
    assert forall p: Pos :: p.x == x && p.y == y ==> p == Pos(x, y);
  }

  lemma FillNextRow(l: LevelView, r: Rect, x: int, y: int, t: TileType)
    requires x > r.maxX
    ensures FillTo(l, r, x, y, t) == FillTo(l, r, r.minX, y + 1, t)
  {
  }

  lemma FillStart(l: LevelView, r: Rect, t: TileType)
    ensures FillTo(l, r, r.minX, r.minY, t) == l
  {
    assert FillTo(l, r, r.minX, r.minY, t).tiles == l.tiles;
  }

  lemma FillEnd(l: LevelView, r: Rect, y: int, t: TileType)
    requires y > r.maxY
    ensures FillTo(l, r, r.minX, y, t) == l.Fill(r, t)
  {
  }

  class Level {
    const Depth: int
    const Width: int
    const Height: int
    const Tiles: array<TileType>
    var Features: seq<Feature>
    var Stairs: seq<Stair>

    ghost predicate Valid() {
      Width > 0 && Height > 0 && Tiles.Length == Width * Height
    }

    function Index(p: Pos): (i: int)
      requires Valid() && InBounds(p.x, p.y)
      ensures 0 <= i < Tiles.Length
    {
      IndexFits(Width, Height, p.x, p.y);
      p.y * Width + p.x
    }

    /** The level as a value. */
    ghost function View(): (v: LevelView)
      requires Valid()
      reads this, Tiles
      ensures v.Shaped() && v.width == Width && v.height == Height && v.depth == Depth
      ensures v.features == Features && v.stairs == Stairs
    {
      var v := LevelView(Depth, Width, Height, map p | p in Cells(Width, Height) :: Tiles[Index(p)], Features, Stairs);
      assert forall p :: p in v.tiles <==> v.InBounds(p);
      v
    }

    constructor (depth: int, w: int, h: int)
      requires w > 0 && h > 0
      ensures Valid() && fresh(Tiles) && Width == w && Height == h
      ensures View() == NewLevel(depth, w, h)
    {
      Depth, Width, Height := depth, w, h;
      assert w * h >= 0;
      Tiles := new TileType[w * h](_ => TileRock);
      Features, Stairs := [], [];
    }

    predicate InBounds(x: int, y: int) { x >= 0 && y >= 0 && x < Width && y < Height }

    predicate Carvable(x: int, y: int) { x >= 1 && y >= 1 && x < Width - 1 && y < Height - 1 }

    /** The tile at (x, y) and whether that cell is in bounds. */
    function At(x: int, y: int): (r: (TileType, bool))
      requires Valid()
      reads this, Tiles
      ensures r.1 == View().InBounds(Pos(x, y)) && r.0 == View().At(Pos(x, y))
    {
      if InBounds(x, y) then (Tiles[Index(Pos(x, y))], true) else (TileRock, false)
    }

    method Set(x: int, y: int, t: TileType)
      requires Valid()
      modifies Tiles
      ensures View() == old(View()).Set(Pos(x, y), t)
    {
      if InBounds(x, y) {
        Tiles[Index(Pos(x, y))] := t;
        forall p: Pos | InBounds(p.x, p.y) && Index(p) == Index(Pos(x, y)) ensures p == Pos(x, y) {
          IndexInjective(Width, p.x, p.y, x, y);
        }
      }
    }

    /** One row of a fill that has reached row y. */
    method FillRow(r: Rect, y: int, t: TileType, ghost was: LevelView)
      requires Valid() && r.minY <= y <= r.maxY
      requires View() == FillTo(was, r, r.minX, y, t)
      modifies Tiles
      ensures View() == FillTo(was, r, r.minX, y + 1, t)
    {
      var x := r.minX;
      while x <= r.maxX
        invariant r.minX <= x
        invariant View() == FillTo(was, r, x, y, t)
      {
        Set(x, y, t);
        FillStep(was, r, x, y, t);
        x := x + 1;
      }
      FillNextRow(was, r, x, y, t);
    }

    method Fill(r: Rect, t: TileType)
      requires Valid()
      modifies Tiles
      ensures View() == old(View()).Fill(r, t)
    {
      ghost var was := View();
      FillStart(was, r, t);
      var y := r.minY;
      while y <= r.maxY
        invariant r.minY <= y
        invariant View() == FillTo(was, r, r.minX, y, t)
      {
        FillRow(r, y, t, was);
        y := y + 1;
      }
      FillEnd(was, r, y, t);
    }

    method AddStair(s: Stair)
      requires Valid()
      modifies `Stairs
      ensures View() == old(View()).(stairs := old(Stairs) + [s])
    {
      Stairs := Stairs + [s];
    }
  }
}
