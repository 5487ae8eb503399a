/** The tactical map: a row-major grid of cells, and the grid as a value. */
module CombatGrid {
  import opened Paths
  import opened RowMajor

  datatype Cell = Cell(blocksMovement: bool, blocksLOS: bool, difficultTerrain: bool)

  const OPEN_FLOOR := Cell(false, false, false)
  const WALL := Cell(true, true, false)

  datatype GridView = GridView(width: int, height: int, cells: map<Pos, Cell>) {
    predicate InBounds(p: Pos) { 0 <= p.x < width && 0 <= p.y < height }

    ghost predicate Shaped() { forall p :: p in cells <==> InBounds(p) }

    /** Where a token can stand. */
    function Open(): set<Pos> { set p | p in cells && !cells[p].blocksMovement }

    /** Off the map or blocking sight. */
    predicate Opaque(p: Pos) { p !in cells || cells[p].blocksLOS }

    /** Opens every cell of a rectangle. */
    function Carve(r: Rect): GridView {
      this.(cells := map p | p in cells :: if r.Has(p) then OPEN_FLOOR else cells[p])
    }

    /** A write out of bounds does nothing. */
    function Set(p: Pos, c: Cell): GridView {
      if p in cells then this.(cells := cells[p := c]) else this
    }
  }

  class Grid {
    const Width: int
    const Height: int
    const Cells: array<Cell>

    ghost predicate Valid() {
      Width >= 0 && Height >= 0 && Cells.Length == Width * Height
    }

    function Index(p: Pos): (i: int)
      requires Valid() && InBounds(p.x, p.y)
      ensures 0 <= i < Cells.Length
    {
      IndexFits(Width, Height, p.x, p.y);
      p.y * Width + p.x
    }

    ghost function View(): (v: GridView)
      requires Valid()
      reads this, Cells
      ensures v.Shaped() && v.width == Width && v.height == Height
    {
      var v := GridView(Width, Height, map p | p in RowMajor.Cells(Width, Height) :: Cells[Index(p)]);
      assert forall p :: p in v.cells <==> v.InBounds(p);
      v
    }

    /** A grid of one kind of cell; open floor is what a fresh grid starts as. */
    constructor (w: int, h: int, c: Cell)
      requires w >= 0 && h >= 0
      ensures Valid() && fresh(Cells) && Width == w && Height == h
      ensures forall p :: p in View().cells ==> View().cells[p] == c
    {
      Width, Height := w, h;
      assert w * h >= 0;
      Cells := new Cell[w * h](_ => c);
    }

    predicate InBounds(x: int, y: int) { x >= 0 && y >= 0 && x < Width && y < Height }

    /** The cell at (x, y) and whether that is on the map. */
    function At(x: int, y: int): (r: (Cell, bool))
      requires Valid()
      reads this, Cells
      ensures r.1 == (Pos(x, y) in View().cells)
      ensures r.1 ==> r.0 == View().cells[Pos(x, y)]
    {
      if InBounds(x, y) then (Cells[Index(Pos(x, y))], true) else (OPEN_FLOOR, false)
    }

    predicate Open(x: int, y: int)
      requires Valid()
      reads this, Cells
      ensures Open(x, y) <==> Pos(x, y) in View().Open()
    {
      At(x, y).1 && !At(x, y).0.blocksMovement
    }

    method Set(x: int, y: int, c: Cell)
      requires Valid()
      modifies Cells
      ensures View() == old(View()).Set(Pos(x, y), c)
      ensures forall p :: p in View().cells ==> View().cells[p] == if p == Pos(x, y) then c else old(View()).cells[p]
    {
      if InBounds(x, y) {
        Cells[Index(Pos(x, y))] := c;
        forall p: Pos | InBounds(p.x, p.y) && Index(p) == Index(Pos(x, y)) ensures p == Pos(x, y) {
          IndexInjective(Width, p.x, p.y, x, y);
        }
      }
    }
  }
}
