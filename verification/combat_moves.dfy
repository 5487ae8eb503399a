/** Legal moves on the tactical map: shortest eight-way walks over open cells. */
module CombatMoves {
  import opened Paths
  import opened RowMajor
  import opened CombatGrid

  const FEET_PER_CELL := 5

  /** Integer division as the source language has it: towards zero. */
  function TruncDiv(a: int, b: int): int
    requires b > 0
  {
    if a >= 0 then a / b else -((-a) / b)
  }

  /** One king's move apart. */
  predicate Near(p: Pos, q: Pos) {
    p != q && -1 <= p.x - q.x <= 1 && -1 <= p.y - q.y <= 1
  }

  /** A walk of king's moves; every cell after the first is open. */
  ghost predicate IsWalk(open: set<Pos>, ps: seq<Pos>) {
    forall i :: 0 < i < |ps| ==> ps[i] in open && Near(ps[i - 1], ps[i])
  }

  ghost predicate WalkBetween(open: set<Pos>, p: Pos, q: Pos, n: nat, ps: seq<Pos>) {
    |ps| == n + 1 && ps[0] == p && ps[n] == q && IsWalk(open, ps)
  }

  /** Some walk takes n steps from p to q. */
  ghost predicate Walks(open: set<Pos>, p: Pos, q: Pos, n: nat) {
    exists ps :: WalkBetween(open, p, q, n, ps)
  }

  /** n is the length of a shortest walk from p to q. */
  ghost predicate Shortest(open: set<Pos>, p: Pos, q: Pos, n: nat) {
    Walks(open, p, q, n) && forall m: nat :: m < n ==> !Walks(open, p, q, m)
  }

  /** The cost of the move within a speed in feet, if it is legal: the destination is
      open, and a shortest walk there is no step at all or within the speed. */
  ghost predicate Legal(g: GridView, p: Pos, q: Pos, feet: int, n: nat) {
    && g.InBounds(p) && q in g.Open()
    && Shortest(g.Open(), p, q, n)
    && (n == 0 || n <= TruncDiv(feet, FEET_PER_CELL))
  }

  /** In plain numbers: five feet a step. */
  lemma {:induction false} LegalExactly(g: GridView, p: Pos, q: Pos, feet: int, n: nat)
    ensures Legal(g, p, q, feet, n) <==>
              && 0 <= p.x < g.width && 0 <= p.y < g.height
              && q in g.cells && !g.cells[q].blocksMovement
              && Shortest(g.Open(), p, q, n) && (n == 0 || 5 * n <= feet)
  {
    hide Shortest;
    SpeedInCells(feet, n);
  }

  // ----- Walks

  lemma WalkSelf(open: set<Pos>, p: Pos)
    ensures Walks(open, p, p, 0)
  {
    assert WalkBetween(open, p, p, 0, [p]);
  }

  lemma WalkStep(open: set<Pos>, p: Pos, q: Pos, n: nat, r: Pos)
    requires Walks(open, p, q, n) && r in open && Near(q, r)
    ensures Walks(open, p, r, n + 1)
  {
    var ps :| WalkBetween(open, p, q, n, ps);
    assert WalkBetween(open, p, r, n + 1, ps + [r]);
  }

  lemma WalkTrans(open: set<Pos>, p: Pos, q: Pos, r: Pos, m: nat, n: nat)
    requires Walks(open, p, q, m) && Walks(open, q, r, n)
    ensures Walks(open, p, r, m + n)
  {
    var a :| WalkBetween(open, p, q, m, a);
    var b :| WalkBetween(open, q, r, n, b);
    var c := a + b[1..];
    forall i | 0 < i < |c| ensures c[i] in open && Near(c[i - 1], c[i]) {
      if i > m + 1 {
        assert c[i] == b[i - m] && c[i - 1] == b[i - m - 1];
      } else if i == m + 1 {
        assert c[i] == b[1] && c[i - 1] == b[0];
      }
    }
    assert WalkBetween(open, p, r, m + n, c);
  }

  lemma WalkReverses(open: set<Pos>, p: Pos, q: Pos, n: nat)
    requires Walks(open, p, q, n) && p in open
    ensures Walks(open, q, p, n)
  {
    var a :| WalkBetween(open, p, q, n, a);
    var b := seq(n + 1, i requires 0 <= i <= n => a[n - i]);
    forall i | 0 < i < |b| ensures b[i] in open && Near(b[i - 1], b[i]) {
      assert b[i] == a[n - i] && b[i - 1] == a[n - i + 1];
      assert n - i > 0 ==> a[n - i] in open;
    }
    assert WalkBetween(open, q, p, n, b);
  }

  lemma {:induction false} ShortestExists(open: set<Pos>, p: Pos, q: Pos, n: nat) returns (m: nat)
    requires Walks(open, p, q, n)
    ensures m <= n && Shortest(open, p, q, m)
    decreases n
  {
    if k: nat :| k < n && Walks(open, p, q, k) {
      m := ShortestExists(open, p, q, k);
    } else {
      m := n;
    }
  }

  lemma ShortestIsUnique(open: set<Pos>, p: Pos, q: Pos, m: nat, n: nat)
    requires Shortest(open, p, q, m)
    ensures Shortest(open, p, q, n) <==> n == m
  {
  }

  // ----- Cost as a distance

  lemma SpeedInCells(feet: int, cells: int)
    ensures TruncDiv(feet, FEET_PER_CELL) >= cells > 0 ==> feet >= FEET_PER_CELL * cells
    ensures feet >= FEET_PER_CELL * cells && cells >= 0 ==> TruncDiv(feet, FEET_PER_CELL) >= cells
  {
  }

  /** A move costs the same both ways. */
  lemma {:induction false} CostIsSymmetric(g: GridView, p: Pos, q: Pos, feet: int, n: nat)
    requires g.Shaped() && p in g.Open() && q in g.Open()
    ensures Legal(g, p, q, feet, n) <==> Legal(g, q, p, feet, n)
  {
    var open := g.Open();
    forall m: nat ensures Walks(open, p, q, m) <==> Walks(open, q, p, m) {
      if Walks(open, p, q, m) { WalkReverses(open, p, q, m); }
      if Walks(open, q, p, m) { WalkReverses(open, q, p, m); }
    }
  }

  /** Two legs compose: with the speed for both, the whole move is legal and costs no
      more than the legs together. */
  lemma {:induction false} CostsCompose(g: GridView, p: Pos, q: Pos, r: Pos, feet1: int, feet2: int, m: nat, n: nat, feet: int) returns (k: nat)
    requires Legal(g, p, q, feet1, m) && Legal(g, q, r, feet2, n)
    requires feet >= FEET_PER_CELL * (m + n)
    ensures k <= m + n && Legal(g, p, r, feet, k)
  {
    WalkTrans(g.Open(), p, q, r, m, n);
    k := ShortestExists(g.Open(), p, r, m + n);
    SpeedInCells(feet, k);
  }

  /** More speed never rejects a legal move or changes its cost. */
  lemma {:induction false} SpeedOnlyHelps(g: GridView, p: Pos, q: Pos, slow: int, fast: int, n: nat, m: nat)
    requires slow <= fast && Legal(g, p, q, slow, n)
    ensures Legal(g, p, q, fast, m) <==> m == n
  {
    ShortestIsUnique(g.Open(), p, q, n, m);
    SpeedInCells(slow, n);
    SpeedInCells(fast, n);
  }

  // ----- A bound on costs

  /** Cutting a walk at a repeated cell makes it shorter. */
  lemma CutLoop(open: set<Pos>, p: Pos, q: Pos, n: nat, ps: seq<Pos>, i: nat, j: nat)
    requires WalkBetween(open, p, q, n, ps) && i < j <= n && ps[i] == ps[j]
    ensures Walks(open, p, q, n - (j - i))
  {
    var c := ps[..i + 1] + ps[j + 1..];
    forall k | 0 < k < |c| ensures c[k] in open && Near(c[k - 1], c[k]) {
      if k > i + 1 {
        assert c[k] == ps[k + (j - i)] && c[k - 1] == ps[k + (j - i) - 1];
      } else if k == i + 1 {
        assert c[k] == ps[j + 1] && c[k - 1] == ps[i];
      }
    }
    assert c[n - (j - i)] == q;
    assert WalkBetween(open, p, q, n - (j - i), c);
  }

  lemma {:induction false} DistinctFit(ps: seq<Pos>, s: set<Pos>)
    requires forall i :: 0 <= i < |ps| ==> ps[i] in s
    requires forall i, j :: 0 <= i < j < |ps| ==> ps[i] != ps[j]
    ensures |ps| <= |s|
  {
    if ps != [] {
      var n := |ps| - 1;
      DistinctFit(ps[..n], s - {ps[n]});
    }
  }

  /** A shortest walk visits no cell twice, so it takes fewer steps than there are cells. */
  lemma ShortestIsShort(open: set<Pos>, p: Pos, q: Pos, n: nat)
    requires p in open && Shortest(open, p, q, n)
    ensures n < |open|
  {
    var ps :| WalkBetween(open, p, q, n, ps);
    forall i, j | 0 <= i < j < |ps| ensures ps[i] != ps[j] {
      if ps[i] == ps[j] {
        CutLoop(open, p, q, n, ps, i, j);
      }
    }
    DistinctFit(ps, open);
  }

  lemma OpenFits(g: GridView)
    requires g.Shaped() && g.width >= 0 && g.height >= 0
    ensures |g.Open()| <= g.width * g.height
  {
    CellCount(g.width, g.height);
    assert g.Open() <= Cells(g.width, g.height);
    SubsetSize(g.Open(), Cells(g.width, g.height));
  }

  lemma SubsetSize(a: set<Pos>, b: set<Pos>)
    requires a <= b
    ensures |a| <= |b|
  {
    assert b == a + (b - a);
  }

  lemma {:induction false} PathIsWalk(open: set<Pos>, ps: seq<Pos>)
    requires IsPath(open, ps)
    ensures IsWalk(open, ps)
  {
    forall i | 0 < i < |ps| ensures Near(ps[i - 1], ps[i]) {
      assert Beside(ps[i - 1], ps[i]);
    }
  }

  /** Between joined open cells a move is legal once the speed covers the whole map. */
  lemma JoinedMeansLegal(g: GridView, p: Pos, q: Pos, feet: int) returns (n: nat)
    requires g.Shaped() && g.width >= 0 && g.height >= 0 && Joined(g.Open(), p, q)
    requires feet >= FEET_PER_CELL * (g.width * g.height)
    ensures Legal(g, p, q, feet, n)
  {
    var ps :| PathBetween(g.Open(), p, q, ps);
    PathIsWalk(g.Open(), ps);
    assert WalkBetween(g.Open(), p, q, |ps| - 1, ps);
    JoinedEnds(g.Open(), p, q);
    n := ShortestExists(g.Open(), p, q, |ps| - 1);
    ShortestIsShort(g.Open(), p, q, n);
    OpenFits(g);
    SpeedInCells(feet, n);
  }
}
