/** Digging keeps a level connected: every carving operation turns rock into
    walkable cells that join up with cells that were walkable before. */
module DungeonDigging {
  import opened Paths
  import opened DungeonModel

  ghost predicate Connected(l: LevelView, a: Pos) {
    forall p :: p in l.Open() ==> Joined(l.Open(), a, p)
  }

  /** after is before with some carvable rock opened up, every opened cell joined to
      a cell that was open already.  No walkable tile changes. */
  ghost predicate Dug(before: LevelView, after: LevelView) {
    && after.(tiles := before.tiles, features := before.features) == before
    && after.tiles.Keys == before.tiles.Keys
    && (forall p :: p in before.tiles && after.tiles[p] != before.tiles[p] ==>
          && before.tiles[p].TileRock? && before.Carvable(p)
          && (after.tiles[p].TileFloor? || after.tiles[p].TileDoor? || after.tiles[p].TileSecretDoor?))
    && (forall p :: p in after.Open() && p !in before.Open() ==> JoinedToOld(before, after, p))
  }

  ghost predicate JoinedToOld(before: LevelView, after: LevelView, p: Pos) {
    exists q :: q in before.Open() && Joined(after.Open(), q, p)
  }

  lemma DugSelf(l: LevelView)
    ensures Dug(l, l)
  {
  }

  lemma DugOpens(a: LevelView, b: LevelView)
    requires Dug(a, b)
    ensures a.Open() <= b.Open()
  {
  }

  lemma DugTrans(a: LevelView, b: LevelView, c: LevelView)
    requires Dug(a, b) && Dug(b, c)
    ensures Dug(a, c)
  {
    DugOpens(a, b);
    DugOpens(b, c);
    forall p | p in c.Open() && p !in a.Open() ensures JoinedToOld(a, c, p) {
      var q := p;
      if p !in b.Open() {
        q :| q in b.Open() && Joined(c.Open(), q, p);
      } else {
        JoinedSelf(c.Open(), p);
      }
      if q !in a.Open() {
        assert JoinedToOld(a, b, q);
        var r :| r in a.Open() && Joined(b.Open(), r, q);
        JoinedGrows(b.Open(), c.Open(), r, q);
        JoinedTrans(c.Open(), r, q, p);
      }
    }
  }

  /** The point of digging: what was connected stays connected. */
  lemma DugKeepsConnected(a: LevelView, b: LevelView, from: Pos)
    requires Dug(a, b) && Connected(a, from)
    ensures Connected(b, from)
  {
    DugOpens(a, b);
    forall p | p in b.Open() ensures Joined(b.Open(), from, p) {
      var q := p;
      if p !in a.Open() {
        assert JoinedToOld(a, b, p);
        q :| q in a.Open() && Joined(b.Open(), q, p);
      } else {
        JoinedSelf(b.Open(), p);
      }
      JoinedGrows(a.Open(), b.Open(), from, q);
      JoinedTrans(b.Open(), from, q, p);
    }
  }

  /** Opening one cell of rock beside an open cell. */
  lemma DigOne(l: LevelView, q: Pos, p: Pos, t: TileType)
    requires l.Shaped() && l.Carvable(p) && !l.Walkable(p)
    requires q in l.Open() && Beside(q, p)
    requires t.TileFloor? || t.TileDoor? || t.TileSecretDoor?
    ensures Dug(l, l.Set(p, t)) && p in l.Set(p, t).Open()
  {
    var m := l.Set(p, t);
    assert m.Open() == l.Open() + {p};
    JoinedStep(m.Open(), q, p);
    assert JoinedToOld(l, m, p);
  }

  lemma {:induction false} CorridorDigs(l: LevelView, p: Pos, dir: Direction, n: int)
    requires l.Shaped() && p in l.Open()
    ensures Dug(l, Corridor(l, p, dir, n).0)
    ensures Corridor(l, p, dir, n).1 in Corridor(l, p, dir, n).0.Open()
    decreases if n < 0 then 0 else n
  {
    hide Dug;
    var q := dir.Ahead(p);
    if n <= 0 || !l.Carvable(q) || l.Walkable(q) {
      DugSelf(l);
    } else {
      var m := l.Set(q, TileFloor);
      DigOne(l, p, q, TileFloor);
      CorridorDigs(m, q, dir, n - 1);
      DugTrans(l, m, Corridor(m, q, dir, n - 1).0);
    }
  }

  /** Where a room sits: clear of xp, with its door in the ring around it and the
      cell behind the door inside it. */
  lemma RoomRectShape(xp: ExpansionPoint, w: int, h: int, off: int)
    requires w >= 1 && h >= 1 && OffsetFits(xp.dir, w, h, off)
    ensures var r := RoomRect(xp, w, h, off);
            && r.maxX - r.minX == w - 1 && r.maxY - r.minY == h - 1
            && r.Padded().Has(xp.Ahead()) && !r.Has(xp.Ahead())
            && r.Has(xp.dir.Ahead(xp.Ahead()))
            && OnWall(r, xp.Ahead(), xp.dir.Around())
  {
  }

  /** A door ahead of an open cell and a room behind it. */
  lemma RoomDigs(l: LevelView, xp: ExpansionPoint, w: int, h: int, off: int, door: TileType)
    requires l.Shaped() && xp.At() in l.Open()
    requires w >= 1 && h >= 1 && OffsetFits(xp.dir, w, h, off)
    requires Placeable(l, RoomRect(xp, w, h, off))
    requires door.TileDoor? || door.TileSecretDoor?
    ensures Dug(l, l.Set(xp.Ahead(), door).Fill(RoomRect(xp, w, h, off), TileFloor))
  {
    var r := RoomRect(xp, w, h, off);
    RoomRectShape(xp, w, h, off);
    var m := l.Set(xp.Ahead(), door);
    DigOne(l, xp.At(), xp.Ahead(), door);
    var a := xp.dir.Ahead(xp.Ahead());
    var f := m.Fill(r, TileFloor);
    forall p | r.Has(p) ensures p in f.Open() && r.Padded().Has(p) {
      assert r.Padded().Has(p);
      assert l.Carvable(p);
    }
    forall p | p in f.Open() && p !in m.Open() ensures JoinedToOld(m, f, p) {
      assert r.Has(p);
      RectJoined(f.Open(), r, a, p);
      assert xp.Ahead() in f.Open();
      JoinedStep(f.Open(), xp.Ahead(), a);
      JoinedTrans(f.Open(), xp.Ahead(), a, p);
    }
    forall p | p in m.tiles && f.tiles[p] != m.tiles[p] ensures m.tiles[p].TileRock? && m.Carvable(p) {
      assert r.Has(p);
      assert r.Padded().Has(p);
    }
    DugTrans(l, m, f);
  }

  /** The chamber cell just inside a wall cell. */
  function Inside(e: Exit): Pos { e.dir.Around().Ahead(e.At()) }

  lemma ExitsFitPrefix(l: LevelView, r: Rect, entry: Direction, exits: seq<Exit>, n: nat)
    requires ExitsFit(l, r, entry, exits) && n <= |exits|
    ensures ExitsFit(l, r, entry, exits[..n])
  {
    hide Punch, OnWall, DoorwayFits;
    forall i | 0 <= i < n ensures exits[..n][..i] == exits[..i] {}
  }

  lemma ExitDigs(l: LevelView, m: LevelView, r: Rect, e: Exit)
    requires l.Shaped() && Dug(l, m)
    requires forall p :: r.Has(p) ==> p in l.Open()
    requires OnWall(r, e.At(), e.dir) && r.minX <= r.maxX && r.minY <= r.maxY
    requires DoorwayFits(m, e.At(), e.dir) && (e.door.TileDoor? || e.door.TileSecretDoor?)
    ensures Dug(l, m.Set(e.At(), e.door))
    ensures m.Open() <= m.Set(e.At(), e.door).Open() && e.At() in m.Set(e.At(), e.door).Open()
  {
    DugOpens(l, m);
    assert r.Has(Inside(e));
    DigOne(m, Inside(e), e.At(), e.door);
    DugTrans(l, m, m.Set(e.At(), e.door));
    DugOpens(m, m.Set(e.At(), e.door));
  }

  lemma {:induction false} PunchDigs(l: LevelView, r: Rect, entry: Direction, exits: seq<Exit>)
    requires l.Shaped() && ExitsFit(l, r, entry, exits)
    requires r.minX <= r.maxX && r.minY <= r.maxY
    requires forall p :: r.Has(p) ==> p in l.Open()
    ensures Dug(l, Punch(l, exits))
    ensures forall i :: 0 <= i < |exits| ==> exits[i].At() in Punch(l, exits).Open()
  {
    if exits == [] {
    } else {
      var n := |exits| - 1;
      ExitsFitPrefix(l, r, entry, exits, n);
      PunchDigs(l, r, entry, exits[..n]);
      ExitDigs(l, Punch(l, exits[..n]), r, exits[n]);
      forall i | 0 <= i < |exits| ensures exits[i].At() in Punch(l, exits).Open() {
        if i < n {
          assert exits[..n][i] == exits[i];
        }
      }
    }
  }
}
