/** Cells of a plane and the four-way paths between them: the notion of
    connectedness shared by the dungeon and the tactical map. */
module Paths {

  datatype Pos = Pos(x: int, y: int)

  /** p and q share an edge. */
  predicate Beside(p: Pos, q: Pos) {
    || (p.x == q.x && (p.y == q.y + 1 || q.y == p.y + 1))
    || (p.y == q.y && (p.x == q.x + 1 || q.x == p.x + 1))
  }

  /** ps walks through open cells only, one edge at a time. */
  ghost predicate IsPath(open: set<Pos>, ps: seq<Pos>) {
    && (forall i :: 0 <= i < |ps| ==> ps[i] in open)
    && (forall i :: 0 < i < |ps| ==> Beside(ps[i - 1], ps[i]))
  }

  ghost predicate PathBetween(open: set<Pos>, p: Pos, q: Pos, ps: seq<Pos>) {
    |ps| > 0 && ps[0] == p && ps[|ps| - 1] == q && IsPath(open, ps)
  }

  /** q can be reached from p without leaving the open cells. */
  ghost predicate Joined(open: set<Pos>, p: Pos, q: Pos) {
    exists ps :: PathBetween(open, p, q, ps)
  }

  lemma JoinedSelf(open: set<Pos>, p: Pos)
    requires p in open
    ensures Joined(open, p, p)
  {
    assert PathBetween(open, p, p, [p]);
  }

  lemma JoinedStep(open: set<Pos>, p: Pos, q: Pos)
    requires p in open && q in open && Beside(p, q)
    ensures Joined(open, p, q)
  {
    assert PathBetween(open, p, q, [p, q]);
  }

  lemma JoinedTrans(open: set<Pos>, p: Pos, q: Pos, r: Pos)
    requires Joined(open, p, q) && Joined(open, q, r)
    ensures Joined(open, p, r)
  {
    var a :| PathBetween(open, p, q, a);
    var b :| PathBetween(open, q, r, b);
    var c := a + b[1..];
    forall i | 0 < i < |c| ensures Beside(c[i - 1], c[i]) {
      if i > |a| {
        assert c[i] == b[i - |a| + 1] && c[i - 1] == b[i - |a|];
      } else if i == |a| {
        assert c[i] == b[1] && c[i - 1] == b[0];
      }
    }
    assert PathBetween(open, p, r, c);
  }

  lemma JoinedSym(open: set<Pos>, p: Pos, q: Pos)
    requires Joined(open, p, q)
    ensures Joined(open, q, p)
  {
    var a :| PathBetween(open, p, q, a);
    var n := |a|;
    var b := seq(n, i requires 0 <= i < n => a[n - 1 - i]);
    forall i | 0 < i < n ensures Beside(b[i - 1], b[i]) {
      assert b[i] == a[n - 1 - i] && b[i - 1] == a[n - i];
    }
    assert PathBetween(open, q, p, b);
  }

  /** Opening more cells never disconnects anything. */
  lemma JoinedGrows(open: set<Pos>, wider: set<Pos>, p: Pos, q: Pos)
    requires Joined(open, p, q) && open <= wider
    ensures Joined(wider, p, q)
  {
    var a :| PathBetween(open, p, q, a);
    assert PathBetween(wider, p, q, a);
  }

  lemma JoinedEnds(open: set<Pos>, p: Pos, q: Pos)
    ensures Joined(open, p, q) ==> p in open && q in open
  {
    forall a | PathBetween(open, p, q, a) ensures p in open && q in open {
      assert a[0] in open && a[|a| - 1] in open;
    }
  }

  /** An inclusive rectangle of cells. */
  datatype Rect = Rect(minX: int, minY: int, maxX: int, maxY: int) {
    predicate Has(p: Pos) { minX <= p.x <= maxX && minY <= p.y <= maxY }

    /** p is one of the cells passed over when a row-by-row sweep stands at (x, y). */
    predicate Swept(x: int, y: int, p: Pos) { Has(p) && (p.y < y || (p.y == y && p.x < x)) }

    /** The rectangle and the one-cell ring around it. */
    function Padded(): Rect { Rect(minX - 1, minY - 1, maxX + 1, maxY + 1) }
  }

  /** A fully open rectangle is one connected piece. */
  lemma {:induction false} RectJoined(open: set<Pos>, r: Rect, p: Pos, q: Pos)
    requires r.Has(p) && r.Has(q)
    requires forall c :: r.Has(c) ==> c in open
    ensures Joined(open, p, q)
    decreases (if p.x < q.x then q.x - p.x else p.x - q.x) + (if p.y < q.y then q.y - p.y else p.y - q.y)
  {
    if p == q {
      JoinedSelf(open, p);
    } else {
      var n := if q.x < p.x then Pos(q.x + 1, q.y) else if p.x < q.x then Pos(q.x - 1, q.y)
               else if q.y < p.y then Pos(q.x, q.y + 1) else Pos(q.x, q.y - 1);
      RectJoined(open, r, p, n);
      JoinedEnds(open, p, n);
      JoinedStep(open, n, q);
      JoinedTrans(open, p, n, q);
    }
  }
}
