/** Rectangles of cells stored row by row in one array. */
module RowMajor {
  import opened Paths

  function Cells(w: int, h: int): set<Pos> {
    set x, y | 0 <= x < w && 0 <= y < h :: Pos(x, y)
  }

  lemma IndexFits(w: int, h: int, x: int, y: int)
    requires 0 <= x < w && 0 <= y < h
    ensures 0 <= y * w + x < w * h
  {
    assert (y + 1) * w <= h * w;
  }

  lemma IndexOrder(w: int, x: int, y: int, u: int, v: int)
    requires 0 <= x < w && 0 <= u && y < v
    ensures y * w + x < v * w + u
  {
    assert (y + 1) * w <= v * w;
  }

  /** No two cells share an index. */
  lemma IndexInjective(w: int, x: int, y: int, u: int, v: int)
    requires 0 <= x < w && 0 <= u < w && y * w + x == v * w + u
    ensures x == u && y == v
  {
    if y < v {
      IndexOrder(w, x, y, u, v);
    } else if v < y {
      IndexOrder(w, u, v, x, y);
    }
  }

  function Row(w: int, y: int): set<Pos> {
    set x | 0 <= x < w :: Pos(x, y)
  }

  /** A rectangle has as many cells as its area. */
  lemma {:induction false} CellCount(w: nat, h: nat)
    ensures |Cells(w, h)| == w * h
  {
    if h == 0 {
      assert Cells(w, h) == {};
    } else {
      CellCount(w, h - 1);
      RowCount(w, h - 1);
      assert Cells(w, h) == Cells(w, h - 1) + Row(w, h - 1);
      assert Cells(w, h - 1) !! Row(w, h - 1);
      assert w * h == w * (h - 1) + w;
    }
  }

  lemma {:induction false} RowCount(w: nat, y: int)
    ensures |Row(w, y)| == w
  {
    if w > 0 {
      RowCount(w - 1, y);
      assert Row(w, y) == Row(w - 1, y) + {Pos(w - 1, y)};
    }
  }
}
