/** ValidateMove: the bounded breadth-first search, proved exact. */
module CombatMovement {
  import opened Paths
  import opened RowMajor
  import opened CombatGrid
  import opened CombatMoves

  datatype Offset = Offset(dx: int, dy: int)

  const NEIGHBOR_OFFSETS := [
    Offset(1, 0), Offset(-1, 0), Offset(0, 1), Offset(0, -1),
    Offset(1, 1), Offset(1, -1), Offset(-1, 1), Offset(-1, -1)]

  function Neighbor(p: Pos, k: int): Pos
    requires 0 <= k < 8
  {
    Pos(p.x + NEIGHBOR_OFFSETS[k].dx, p.y + NEIGHBOR_OFFSETS[k].dy)
  }

  /** The eight offsets are exactly the king's moves. */
  lemma NeighborsAreNear(p: Pos, q: Pos)
    ensures Near(p, q) <==> exists k :: 0 <= k < 8 && q == Neighbor(p, k)
  {
    if Near(p, q) {
      var dx, dy := q.x - p.x, q.y - p.y;
      var k := if dy == 0 then (if dx == 1 then 0 else 1)
               else if dx == 0 then (if dy == 1 then 2 else 3)
               else if dx == 1 then (if dy == 1 then 4 else 5) else (if dy == 1 then 6 else 7);
      assert q == Neighbor(p, k);
    }
  }

  /** p is known to be within n steps. */
  predicate Within(dist: map<Pos, nat>, p: Pos, n: nat) { p in dist && dist[p] <= n }

  /** Cells whose neighbours have all been looked at. */
  ghost predicate Expanded(open: set<Pos>, dist: map<Pos, nat>, done: set<Pos>, limit: nat) {
    && done <= dist.Keys
    && forall p, q :: p in done && dist[p] < limit && q in open && Near(p, q) ==> Within(dist, q, dist[p] + 1)
  }

  /** Every recorded distance is the length of some walk. */
  ghost predicate Sound(open: set<Pos>, start: Pos, dist: map<Pos, nat>) {
    && start in dist && dist[start] == 0
    && forall p :: p in dist ==> Walks(open, start, p, dist[p]) && (p == start || p in open)
  }

  /** The queue holds the recorded cells not yet done, nearest first, at most two
      distances at a time; d is where it stands. */
  ghost predicate Queued(dist: map<Pos, nat>, queue: seq<Pos>, done: set<Pos>, d: nat) {
    && (forall p :: p in queue <==> p in dist && p !in done)
    && (forall i :: 0 <= i < |queue| ==> queue[i] in dist && d <= dist[queue[i]] <= d + 1)
    && (forall i, j :: 0 <= i < j < |queue| ==> queue[i] != queue[j] && dist[queue[i]] <= dist[queue[j]])
  }

  /** With everything nearer than d expanded, a walk of at most d steps and at most
      limit steps ends on a cell recorded no further than its length. */
  lemma {:induction false} WalkIsCovered(open: set<Pos>, start: Pos, dist: map<Pos, nat>, done: set<Pos>, limit: nat,
                                         d: nat, ps: seq<Pos>, i: nat)
    requires Sound(open, start, dist) && Expanded(open, dist, done, limit)
    requires forall p :: p in dist && dist[p] < d ==> p in done
    requires i < |ps| && i <= d && i <= limit && ps[0] == start && IsWalk(open, ps)
    ensures Within(dist, ps[i], i)
  {
    if i > 0 {
      WalkIsCovered(open, start, dist, done, limit, d, ps, i - 1);
      assert ps[i] in open && Near(ps[i - 1], ps[i]);
    }
  }

  /** A recorded distance d is shortest once everything nearer is expanded. */
  lemma RecordedIsShortest(open: set<Pos>, start: Pos, dist: map<Pos, nat>, done: set<Pos>, limit: nat, q: Pos)
    requires Sound(open, start, dist) && Expanded(open, dist, done, limit)
    requires q in dist && dist[q] <= limit
    requires forall p :: p in dist && dist[p] < dist[q] ==> p in done
    ensures Shortest(open, start, q, dist[q])
  {
    forall m: nat | m < dist[q] ensures !Walks(open, start, q, m) {
      if Walks(open, start, q, m) {
        var ps :| WalkBetween(open, start, q, m, ps);
        WalkIsCovered(open, start, dist, done, limit, dist[q], ps, m);
      }
    }
  }

  /** When nothing is left to expand, an unexpanded cell has no walk within the limit. */
  lemma ExhaustedMeansTooFar(open: set<Pos>, start: Pos, dist: map<Pos, nat>, done: set<Pos>, limit: nat, q: Pos, m: nat)
    requires Sound(open, start, dist) && Expanded(open, dist, done, limit)
    requires dist.Keys == done && q !in done && m <= limit
    ensures !Walks(open, start, q, m)
  {
    if Walks(open, start, q, m) {
      var ps :| WalkBetween(open, start, q, m, ps);
      WalkIsCovered(open, start, dist, done, limit, limit, ps, m);
    }
  }

  method ValidateMove(g: Grid?, fromX: int, fromY: int, toX: int, toY: int, speedFeet: int) returns (ok: bool, cellsCost: nat)
    requires g != null ==> g.Valid()
    ensures g == null ==> !ok && cellsCost == 0
    ensures g != null ==>
              var v, p, q := g.View(), Pos(fromX, fromY), Pos(toX, toY);
              && (ok ==> Legal(v, p, q, speedFeet, cellsCost))
              && (!ok ==> cellsCost == 0 && forall n: nat :: !Legal(v, p, q, speedFeet, n))
  {
    if g == null || !g.InBounds(fromX, fromY) || !g.Open(toX, toY) {
      return false, 0;
    }
    ghost var open := g.View().Open();
    var start, target := Pos(fromX, fromY), Pos(toX, toY);
    if fromX == toX && fromY == toY {
      WalkSelf(open, start);
      return true, 0;
    }
    var maxSteps := TruncDiv(speedFeet, FEET_PER_CELL);
    if maxSteps <= 0 {
      OnlySelfAtZero(open, start, target);
      return false, 0;
    }
    ok, cellsCost := Search(g, start, target, maxSteps);
  }

  lemma OnlySelfAtZero(open: set<Pos>, p: Pos, q: Pos)
    ensures Walks(open, p, q, 0) ==> p == q
  {
  }

  /** after records all that before does, and beyond it only open cells at distance d. */
  ghost predicate Records(open: set<Pos>, before: map<Pos, nat>, after: map<Pos, nat>, d: nat) {
    && (forall p :: p in before ==> p in after && after[p] == before[p])
    && (forall p :: p in after && p !in before ==> p in open && after[p] == d)
  }

  /** Looks at the neighbours of cur, which stands at distance d and counts as done: the
      open ones not yet recorded go on the queue at distance d + 1. */
  method Expand(g: Grid, cur: Pos, d: nat, ghost start: Pos, dist0: map<Pos, nat>, queue0: seq<Pos>, ghost done: set<Pos>)
    returns (dist: map<Pos, nat>, queue: seq<Pos>)
    requires g.Valid() && Sound(g.View().Open(), start, dist0)
    requires cur in dist0 && dist0[cur] == d && done <= dist0.Keys
    requires Queued(dist0, queue0, done, d)
    requires forall p :: p in dist0 ==> dist0[p] <= d + 1
    ensures Sound(g.View().Open(), start, dist)
    ensures Records(g.View().Open(), dist0, dist, d + 1)
    ensures Queued(dist, queue, done, d)
    ensures forall q :: q in g.View().Open() && Near(cur, q) ==> Within(dist, q, d + 1)
  {
    hide Grid.View, GridView.Open, Sound, Queued, Near;
    ghost var open := g.View().Open();
    dist, queue := dist0, queue0;
    var k := 0;
    while k < 8
      invariant 0 <= k <= 8
      invariant Sound(open, start, dist) && Records(open, dist0, dist, d + 1) && Queued(dist, queue, done, d)
      invariant forall j :: 0 <= j < k && Neighbor(cur, j) in open ==> Within(dist, Neighbor(cur, j), d + 1)
    {
      var next := Neighbor(cur, k);
      if g.Open(next.x, next.y) && next !in dist {
        NeighborsAreNear(cur, next);
        Record(open, start, dist, cur, next);
        AddToQueue(dist, queue, done, d, next);
        dist, queue := dist[next := d + 1], queue + [next];
      }
      k := k + 1;
    }
    forall q | q in open && Near(cur, q) ensures Within(dist, q, d + 1) {
      NeighborsAreNear(cur, q);
    }
  }

  lemma Record(open: set<Pos>, start: Pos, dist: map<Pos, nat>, p: Pos, q: Pos)
    requires Sound(open, start, dist) && p in dist && q !in dist && q in open && Near(p, q)
    ensures Sound(open, start, dist[q := dist[p] + 1])
  {
    WalkStep(open, start, p, dist[p], q);
  }

  lemma AddToQueue(dist: map<Pos, nat>, queue: seq<Pos>, done: set<Pos>, d: nat, p: Pos)
    requires Queued(dist, queue, done, d) && p !in dist && p !in done
    ensures Queued(dist[p := d + 1], queue + [p], done, d)
  {
  }

  lemma PopQueue(dist: map<Pos, nat>, queue: seq<Pos>, done: set<Pos>, d: nat)
    requires Queued(dist, queue, done, d) && queue != []
    ensures queue[0] in dist && queue[0] !in done && d <= dist[queue[0]]
    ensures Queued(dist, queue[1..], done + {queue[0]}, dist[queue[0]])
    ensures forall p :: p in dist && p !in done ==> dist[p] >= dist[queue[0]]
  {
    var cur := queue[0];
    assert cur in queue;
    forall p | p in dist && p !in done ensures dist[p] >= dist[cur] && (p != cur ==> p in queue[1..]) {
      var i :| 0 <= i < |queue| && queue[i] == p;
      assert i > 0 ==> queue[1..][i - 1] == p;
    }
    forall p | p in queue[1..] ensures p in queue && p != cur {
      var i :| 1 <= i < |queue| && queue[i] == p;
    }
  }

  /** The state of the search. */
  ghost predicate Searching(open: set<Pos>, all: set<Pos>, start: Pos, target: Pos, limit: nat,
                            dist: map<Pos, nat>, queue: seq<Pos>, done: set<Pos>, d: nat) {
    && Sound(open, start, dist) && Expanded(open, dist, done, limit) && Queued(dist, queue, done, d)
    && (forall p :: p in dist ==> p in all && dist[p] <= d + 1 && dist[p] <= limit)
    && target !in done
  }

  /** What is known of the cell at the front of the queue. */
  lemma Front(open: set<Pos>, all: set<Pos>, start: Pos, target: Pos, limit: nat,
              dist: map<Pos, nat>, queue: seq<Pos>, done: set<Pos>, d: nat)
    requires Searching(open, all, start, target, limit, dist, queue, done, d) && queue != []
    ensures var cur := queue[0];
            && cur in dist && dist[cur] <= limit && Sound(open, start, dist)
            && done + {cur} <= dist.Keys && Queued(dist, queue[1..], done + {cur}, dist[cur])
            && (forall p :: p in dist ==> dist[p] <= dist[cur] + 1)
            && (cur == target ==> Shortest(open, start, target, dist[cur]))
  {
    hide Queued, Shortest;
    PopQueue(dist, queue, done, d);
    if queue[0] == target {
      RecordedIsShortest(open, start, dist, done, limit, target);
    }
  }

  /** Moving the front cell from the queue to what is done. */
  lemma Next(open: set<Pos>, all: set<Pos>, start: Pos, target: Pos, limit: nat,
             dist0: map<Pos, nat>, queue0: seq<Pos>, done: set<Pos>, d: nat,
             dist: map<Pos, nat>, queue: seq<Pos>, cur: Pos)
    requires Searching(open, all, start, target, limit, dist0, queue0, done, d) && queue0 != []
    requires cur == queue0[0] && cur in dist0 && cur != target && open <= all
    requires Sound(open, start, dist) && Records(open, dist0, dist, dist0[cur] + 1)
    requires Queued(dist, queue, done + {cur}, dist0[cur])
    requires if dist0[cur] < limit
             then forall q :: q in open && Near(cur, q) ==> Within(dist, q, dist0[cur] + 1)
             else dist == dist0
    ensures Searching(open, all, start, target, limit, dist, queue, done + {cur}, dist0[cur])
    ensures |all - (done + {cur})| < |all - done|
  {
    hide Queued, Sound, Near, Within;
    PopQueue(dist0, queue0, done, d);
    ExpandOne(open, dist0, dist, done, limit, cur);
    SmallerBy(all, done, cur);
  }

  /** Expanding one more cell, or one at the limit, which has nothing to add. */
  lemma ExpandOne(open: set<Pos>, dist0: map<Pos, nat>, dist: map<Pos, nat>, done: set<Pos>, limit: nat, cur: Pos)
    requires Expanded(open, dist0, done, limit) && cur in dist0
    requires forall p :: p in dist0 ==> p in dist && dist[p] == dist0[p]
    requires dist0[cur] < limit ==> forall q :: q in open && Near(cur, q) ==> Within(dist, q, dist0[cur] + 1)
    ensures Expanded(open, dist, done + {cur}, limit)
  {
  }

  /** The worklist loop between two distinct cells. */
  method Search(g: Grid, start: Pos, target: Pos, maxSteps: nat) returns (ok: bool, cellsCost: nat)
    requires g.Valid() && g.View().InBounds(start) && start != target
    ensures ok ==> Shortest(g.View().Open(), start, target, cellsCost) && cellsCost <= maxSteps
    ensures !ok ==> cellsCost == 0 && forall n: nat :: n <= maxSteps ==> !Walks(g.View().Open(), start, target, n)
  {
    hide Grid.View, Queued, Expanded, Sound, Within, Near, GridView.Open, Cells, Walks, Searching, Shortest;
    ghost var open := g.View().Open();
    ghost var all := Cells(g.Width, g.Height);
    OpenOnMap(g.View());
    var dist: map<Pos, nat>, queue := map[start := 0], [start];
    ghost var done: set<Pos>, d: nat := {}, 0;
    StartSearch(open, all, start, target, maxSteps);
    while |queue| > 0
      invariant Searching(open, all, start, target, maxSteps, dist, queue, done, d)
      decreases |all - done|
    {
      Front(open, all, start, target, maxSteps, dist, queue, done, d);
      var cur := queue[0];
      var curDist := dist[cur];
      if cur == target {
        return true, curDist;
      }
      var more, line := dist, queue[1..];
      if curDist < maxSteps {
        more, line := Expand(g, cur, curDist, start, dist, queue[1..], done + {cur});
      }
      Next(open, all, start, target, maxSteps, dist, queue, done, d, more, line, cur);
      dist, queue, done, d := more, line, done + {cur}, curDist;
    }
    Exhausted(open, all, start, target, maxSteps, dist, done, d);
    ok, cellsCost := false, 0;
  }

  lemma Exhausted(open: set<Pos>, all: set<Pos>, start: Pos, target: Pos, limit: nat,
                  dist: map<Pos, nat>, done: set<Pos>, d: nat)
    requires Searching(open, all, start, target, limit, dist, [], done, d)
    ensures forall n: nat :: n <= limit ==> !Walks(open, start, target, n)
  {
    forall p ensures p in dist <==> p in done {
      assert p !in [];
    }
    forall n: nat | n <= limit ensures !Walks(open, start, target, n) {
      ExhaustedMeansTooFar(open, start, dist, done, limit, target, n);
    }
  }

  lemma StartSearch(open: set<Pos>, all: set<Pos>, start: Pos, target: Pos, limit: nat)
    requires start in all
    ensures Searching(open, all, start, target, limit, map[start := 0], [start], {}, 0)
  {
    WalkSelf(open, start);
  }

  lemma SmallerBy(all: set<Pos>, done: set<Pos>, p: Pos)
    requires p in all && p !in done
    ensures |all - (done + {p})| < |all - done|
  {
    assert all - done == all - (done + {p}) + {p};
  }

  lemma OpenOnMap(g: GridView)
    requires g.Shaped()
    ensures g.Open() <= Cells(g.width, g.height)
    ensures forall p :: g.InBounds(p) ==> p in Cells(g.width, g.height)
  {
  }
}
