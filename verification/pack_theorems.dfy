/** Adding files to a pack is all or nothing, when it is. */
module PackTheorems {
  import opened PackModel

  // ----- Paths

  predicate Plain(c: char) { c != '/' && c != '.' && c != '\\' }

  lemma SlugsArePlain(s: string)
    requires IsSlug(s)
    ensures forall i :: 0 <= i < |s| ==> Plain(s[i])
  {
  }

  /** One separator, after the folder, and one dot, before the extension. */
  lemma PageStaysInside(folder: string, p: string)
    requires IsPageOf(folder, p) && folder != "" && forall i :: 0 <= i < |folder| ==> Plain(folder[i])
    ensures |p| > |folder|
    ensures forall i :: 0 <= i < |p| ==> p[i] != '\\' && (p[i] == '/' <==> i == |folder|) && (p[i] == '.' <==> i == |p| - 3)
  {
    hide IsSlug;
    var slug := p[|folder| + 1..|p| - 3];
    SlugsArePlain(slug);
    forall i | 0 <= i < |p| ensures p[i] != '\\' && (p[i] == '/' <==> i == |folder|) && (p[i] == '.' <==> i == |p| - 3) {
      if i <= |folder| {
        assert p[i] == (folder + "/")[i];
      } else if i < |p| - 3 {
        assert p[i] == slug[i - |folder| - 1];
      } else {
        assert p[i] == ".md"[i - |p| + 3];
      }
    }
  }

  /** An allowed path names a file in the pack's own directory or one folder down: it does
      not start with a separator, has at most one, and has a single dot, so no ".." part. */
  lemma AllowedPathsStayInside(p: string)
    requires IsAllowedPackFilePath(p)
    ensures p[0] != '/' && '\\' !in p
    ensures forall i, j :: 0 <= i < j < |p| && p[i] == '/' ==> p[j] != '/'
    ensures forall i, j :: 0 <= i < j < |p| && p[i] == '.' ==> p[j] != '.'
  {
    hide IsPageOf;
    if p != "campaign.md" {
      var folder := if IsPageOf("locations", p) then "locations" else if IsPageOf("npcs", p) then "npcs" else "encounters";
      PageStaysInside(folder, p);
    }
  }

  /** Letters and digits, and hyphens but in the first place. */
  predicate PageName(name: string) {
    name != "" && forall i :: 0 <= i < |name| ==> 'a' <= name[i] <= 'z' || '0' <= name[i] <= '9' || (i > 0 && name[i] == '-')
  }

  ghost predicate IsPage(p: string, folder: string, name: string) { p == folder + "/" + name + ".md" && PageName(name) }

  lemma PageParts(p: string, folder: string, name: string)
    requires p == folder + "/" + name + ".md"
    ensures |p| == |folder| + |name| + 4 && p[..|folder| + 1] == folder + "/" && p[|p| - 3..] == ".md"
    ensures p[|folder| + 1..|p| - 3] == name
  {
    assert p == (folder + "/") + (name + ".md");
  }

  lemma SlugIsPageName(name: string)
    ensures IsSlug(name) <==> PageName(name)
  {
    if PageName(name) {
      assert IsLowerAlnum(name[0]);
    }
  }

  lemma PageExactly(folder: string, p: string)
    ensures IsPageOf(folder, p) <==> exists name :: IsPage(p, folder, name)
  {
    hide IsSlug, PageName;
    if name :| IsPage(p, folder, name) {
      PageParts(p, folder, name);
      SlugIsPageName(name);
    }
    if IsPageOf(folder, p) {
      var name := p[|folder| + 1..|p| - 3];
      SlugIsPageName(name);
      assert p == p[..|folder| + 1] + name + p[|p| - 3..];
      assert IsPage(p, folder, name);
    }
  }

  /** Exactly the paths a pack may have: campaign.md, and a page straight under one of three
      folders. */
  lemma AllowedExactly(p: string)
    ensures IsAllowedPackFilePath(p) <==>
              || p == "campaign.md"
              || (exists name :: IsPage(p, "locations", name))
              || (exists name :: IsPage(p, "npcs", name))
              || (exists name :: IsPage(p, "encounters", name))
  {
    hide IsPageOf, IsPage;
    PageExactly("locations", p);
    PageExactly("npcs", p);
    PageExactly("encounters", p);
  }

  lemma FullIsInjective(dir: string, a: string, b: string)
    ensures Full(dir, a) == Full(dir, b) <==> a == b
    ensures Under(dir, Full(dir, a))
  {
    assert Full(dir, a)[|dir| + 1..] == a && Full(dir, b)[|dir| + 1..] == b;
  }

  // ----- The overlay

  /** j is the last of the first n files with its path. */
  ghost predicate Last(files: seq<GeneratedFile>, n: nat, j: nat)
    requires n <= |files|
  {
    j < n && forall k :: j < k < n ==> files[k].path != files[j].path
  }

  ghost predicate Mentions(files: seq<GeneratedFile>, dir: string, n: nat, full: string)
    requires n <= |files|
  {
    exists i :: 0 <= i < n && Full(dir, files[i].path) == full
  }

  /** The overlay holds each path's last content, and the old disk elsewhere. */
  lemma {:induction false} OverlaidAt(d: Disk, dir: string, files: seq<GeneratedFile>, n: nat)
    requires n <= |files|
    ensures forall j :: 0 <= j && Last(files, n, j) ==> Lookup(Overlaid(d, dir, files, n), Full(dir, files[j].path)) == Some(files[j].content)
    ensures forall full :: !Mentions(files, dir, n, full) ==> Lookup(Overlaid(d, dir, files, n), full) == Lookup(d, full)
  {
    hide Full;
    if n > 0 {
      OverlaidAt(d, dir, files, n - 1);
      forall j | 0 <= j && Last(files, n, j)
        ensures Lookup(Overlaid(d, dir, files, n), Full(dir, files[j].path)) == Some(files[j].content)
      {
        FullIsInjective(dir, files[j].path, files[n - 1].path);
        assert j < n - 1 ==> Last(files, n - 1, j);
      }
      forall full | !Mentions(files, dir, n, full) ensures Lookup(Overlaid(d, dir, files, n), full) == Lookup(d, full) {
        assert !Mentions(files, dir, n - 1, full) && full != Full(dir, files[n - 1].path);
      }
    }
  }

  // ----- The rollback

  lemma {:induction false} StoppedElsewhere(d: Disk, dir: string, files: seq<GeneratedFile>, fates: seq<Fate>, n: nat, full: string)
    requires n <= |files| == |fates| && !Mentions(files, dir, |files|, full)
    ensures Lookup(Stopped(d, dir, files, fates, n), full) == Lookup(d, full)
  {
    OverlaidAt(d, dir, files, n);
    assert !Mentions(files, dir, n, full);
  }

  lemma {:induction false} UndoneElsewhere(d: Disk, dir: string, files: seq<GeneratedFile>, fates: seq<Fate>, n: nat, k: nat, full: string)
    requires k <= n <= |files| == |fates| && !Mentions(files, dir, |files|, full)
    ensures Lookup(Undone(d, dir, files, fates, n, k), full) == Lookup(d, full)
  {
    if k == 0 {
      StoppedElsewhere(d, dir, files, fates, n, full);
    } else {
      UndoneElsewhere(d, dir, files, fates, n, k - 1, full);
    }
  }

  /** Whatever fails, writes and undoing included, no file the call does not name changes. */
  lemma {:induction false} OtherFilesAreUntouched(d: Disk, dir: string, files: seq<GeneratedFile>, fates: seq<Fate>, loads: (Disk, string) -> bool, full: string)
    requires |files| == |fates| && forall i :: 0 <= i < |files| ==> Full(dir, files[i].path) != full
    ensures Lookup(Add(d, dir, files, fates, loads).1, full) == Lookup(d, full)
  {
    OverlaidAt(d, dir, files, |files|);
    UndoneElsewhere(d, dir, files, fates, Reached(fates), Reached(fates), full);
  }

  /** What file i found on disk just before it was written: the content of the file before
      it with its path, or else the disk's own. */
  function Prior(d: Disk, dir: string, files: seq<GeneratedFile>, path: string, i: nat): Option<string>
    requires i <= |files|
  {
    if i == 0 then Lookup(d, Full(dir, path))
    else if files[i - 1].path == path then Some(files[i - 1].content)
    else Prior(d, dir, files, path, i - 1)
  }

  lemma {:induction false} PriorIsOverlaid(d: Disk, dir: string, files: seq<GeneratedFile>, path: string, i: nat)
    requires i <= |files|
    ensures Prior(d, dir, files, path, i) == Lookup(Overlaid(d, dir, files, i), Full(dir, path))
  {
    if i > 0 {
      FullIsInjective(dir, path, files[i - 1].path);
      PriorIsOverlaid(d, dir, files, path, i - 1);
    }
  }

  lemma SameDisk(a: Disk, b: Disk)
    requires forall full :: Lookup(a, full) == Lookup(b, full)
    ensures a == b
  {
    forall full: string ensures full in a <==> full in b {
      assert Lookup(a, full) == Lookup(b, full);
    }
    forall full | full in a ensures a[full] == b[full] {
      assert Lookup(a, full) == Lookup(b, full);
    }
  }

  /** What was kept of what file i found. */
  function KeptOf(d: Disk, dir: string, files: seq<GeneratedFile>, fates: seq<Fate>, i: nat): Option<string>
    requires i < |files| == |fates|
  {
    if fates[i].readable then Prior(d, dir, files, files[i].path, i) else None
  }

  /** What undoing leaves at a path that holds something else. */
  function UndoLeaves(kept: Option<string>, fate: WriteFate, held: Option<string>): Option<string> {
    match fate
    case Done => kept
    case Unwritten => held
    case Torn(left) => if kept.Some? then Some(left) else held
  }

  /** What a path ends with when file n could not be written and the first k of the n
      before it have been undone, read off the files, their fates and the disk's own
      content of the path: what the last undoing of it that did anything left, or else what
      a write of it that broke off left, or else its last content. */
  function EndsWith(d: Disk, dir: string, files: seq<GeneratedFile>, fates: seq<Fate>, n: nat, k: nat, path: string): Option<string>
    requires k <= n <= |files| == |fates|
  {
    if k > 0 then
      var before := EndsWith(d, dir, files, fates, n, k - 1, path);
      if files[k - 1].path == path then UndoLeaves(KeptOf(d, dir, files, fates, k - 1), fates[k - 1].undo, before) else before
    else if n < |files| && fates[n].mkdir && fates[n].write.Torn? && files[n].path == path then Some(fates[n].write.left)
    else Prior(d, dir, files, path, n)
  }

  lemma UndoOneAt(d: Disk, full: string, kept: Option<string>, fate: WriteFate, other: string)
    ensures Lookup(UndoOne(d, full, kept, fate), other) == if other == full then UndoLeaves(kept, fate, Lookup(d, full)) else Lookup(d, other)
  {
  }

  lemma {:induction false} UndoneEndsWith(d: Disk, dir: string, files: seq<GeneratedFile>, fates: seq<Fate>, n: nat, k: nat, path: string)
    requires k <= n <= |files| == |fates|
    ensures Lookup(Undone(d, dir, files, fates, n, k), Full(dir, path)) == EndsWith(d, dir, files, fates, n, k, path)
  {
    hide UndoOne, UndoLeaves, Full;
    if k > 0 {
      UndoneEndsWith(d, dir, files, fates, n, k - 1, path);
      PriorIsOverlaid(d, dir, files, files[k - 1].path, k - 1);
      FullIsInjective(dir, path, files[k - 1].path);
      UndoOneAt(Undone(d, dir, files, fates, n, k - 1), Full(dir, files[k - 1].path), Kept(d, dir, files, fates, k - 1),
                fates[k - 1].undo, Full(dir, path));
    } else {
      PriorIsOverlaid(d, dir, files, path, n);
      if n < |files| {
        FullIsInjective(dir, path, files[n].path);
      }
    }
  }

  /** Each path of the files ends with what the disk held there at first. */
  ghost predicate EndsAsBefore(d: Disk, dir: string, files: seq<GeneratedFile>, fates: seq<Fate>, n: nat, k: nat)
    requires k <= n <= |files| == |fates|
  {
    forall i :: 0 <= i < |files| ==> EndsWith(d, dir, files, fates, n, k, files[i].path) == Lookup(d, Full(dir, files[i].path))
  }

  lemma {:induction false} UndoneExactly(d: Disk, dir: string, files: seq<GeneratedFile>, fates: seq<Fate>, n: nat, k: nat)
    requires k <= n <= |files| == |fates|
    ensures Undone(d, dir, files, fates, n, k) == d <==> EndsAsBefore(d, dir, files, fates, n, k)
  {
    hide Undone, EndsWith, Full, Lookup;
    var u := Undone(d, dir, files, fates, n, k);
    forall i | 0 <= i < |files|
      ensures Lookup(u, Full(dir, files[i].path)) == EndsWith(d, dir, files, fates, n, k, files[i].path)
    {
      UndoneEndsWith(d, dir, files, fates, n, k, files[i].path);
    }
    if EndsAsBefore(d, dir, files, fates, n, k) {
      forall full ensures Lookup(u, full) == Lookup(d, full) {
        if !Mentions(files, dir, |files|, full) {
          UndoneElsewhere(d, dir, files, fates, n, k, full);
        }
      }
      SameDisk(u, d);
    }
  }

  ghost predicate Accepted(files: seq<GeneratedFile>) {
    forall i :: 0 <= i < |files| ==> PathError(files[i]).None?
  }

  /** Whatever fails, a failed call leaves the disk as it was exactly when each path ends
      with what the disk held there at first. */
  lemma {:induction false} FailureRestoresExactly(d: Disk, dir: string, files: seq<GeneratedFile>, fates: seq<Fate>, loads: (Disk, string) -> bool)
    requires |files| == |fates|
    ensures var (e, after) := Add(d, dir, files, fates, loads);
            var n := Reached(fates);
            e.Some? ==> (after == d <==> Accepted(files) ==> EndsAsBefore(d, dir, files, fates, n, n))
  {
    hide Undone, EndsAsBefore;
    UndoneExactly(d, dir, files, fates, Reached(fates), Reached(fates));
  }

  // ----- When writes and undoing do not break off

  /** Failed writes change nothing and undoing works. */
  predicate Tidy(fates: seq<Fate>) {
    forall i :: 0 <= i < |fates| ==> fates[i].undo.Done? && !fates[i].write.Torn?
  }

  /** The last write of each path found, and could read, what the disk held at first. */
  ghost predicate Recoverable(d: Disk, dir: string, files: seq<GeneratedFile>, fates: seq<Fate>, n: nat)
    requires n <= |files| == |fates|
  {
    forall j :: 0 <= j && Last(files, n, j) ==> KeptOf(d, dir, files, fates, j) == Lookup(d, Full(dir, files[j].path))
  }

  /** A path ends with what was kept the last time it was written, or was never written. */
  lemma {:induction false} TidyEndsWith(d: Disk, dir: string, files: seq<GeneratedFile>, fates: seq<Fate>, n: nat, k: nat, path: string)
    returns (j: int)
    requires k <= n <= |files| == |fates| && Tidy(fates)
    ensures if 0 <= j
            then Last(files, k, j) && files[j].path == path
                 && EndsWith(d, dir, files, fates, n, k, path) == KeptOf(d, dir, files, fates, j)
            else (forall i :: 0 <= i < k ==> files[i].path != path)
                 && EndsWith(d, dir, files, fates, n, k, path) == Prior(d, dir, files, path, n)
  {
    if k == 0 {
      j := -1;
    } else if files[k - 1].path == path {
      j := k - 1;
    } else {
      j := TidyEndsWith(d, dir, files, fates, n, k - 1, path);
    }
  }

  lemma {:induction false} UnwrittenPrior(d: Disk, dir: string, files: seq<GeneratedFile>, path: string, n: nat)
    requires n <= |files| && forall i :: 0 <= i < n ==> files[i].path != path
    ensures Prior(d, dir, files, path, n) == Lookup(d, Full(dir, path))
  {
    if n > 0 {
      UnwrittenPrior(d, dir, files, path, n - 1);
    }
  }

  lemma {:induction false} TidyEndsAsBefore(d: Disk, dir: string, files: seq<GeneratedFile>, fates: seq<Fate>, n: nat)
    requires n <= |files| == |fates| && Tidy(fates)
    ensures EndsAsBefore(d, dir, files, fates, n, n) <==> Recoverable(d, dir, files, fates, n)
  {
    hide EndsWith, KeptOf, Lookup, Full;
    forall i | 0 <= i < |files|
      ensures Recoverable(d, dir, files, fates, n) ==> EndsWith(d, dir, files, fates, n, n, files[i].path) == Lookup(d, Full(dir, files[i].path))
    {
      var j := TidyEndsWith(d, dir, files, fates, n, n, files[i].path);
      if j < 0 {
        UnwrittenPrior(d, dir, files, files[i].path, n);
      }
    }
    forall j | 0 <= j && Last(files, n, j)
      ensures EndsWith(d, dir, files, fates, n, n, files[j].path) == KeptOf(d, dir, files, fates, j)
    {
      var m := TidyEndsWith(d, dir, files, fates, n, n, files[j].path);
      assert m >= 0 ==> m == j;
    }
  }

  /** When writes do not break off and undoing works, a failed call leaves the disk as it was
      exactly when, for each path it wrote, the last write of it found, and could read, what
      was there at first. */
  lemma {:induction false} TidyFailureRestoresExactly(d: Disk, dir: string, files: seq<GeneratedFile>, fates: seq<Fate>,
                                                      loads: (Disk, string) -> bool)
    requires |files| == |fates| && Tidy(fates)
    ensures var (e, after) := Add(d, dir, files, fates, loads);
            e.Some? ==> (after == d <==> Accepted(files) ==> Recoverable(d, dir, files, fates, Reached(fates)))
  {
    hide Recoverable, EndsAsBefore, Add;
    FailureRestoresExactly(d, dir, files, fates, loads);
    TidyEndsAsBefore(d, dir, files, fates, Reached(fates));
  }

  // ----- When no path is given twice

  ghost predicate DistinctPaths(files: seq<GeneratedFile>) {
    forall i, j :: 0 <= i < j < |files| ==> files[i].path != files[j].path
  }

  /** A written file is mended: undoing it brought back what was there, or did nothing and
      the new content is what was there. */
  predicate MendedFile(orig: Option<string>, content: string, fate: Fate) {
    match fate.undo
    case Done => fate.readable || orig.None?
    case Unwritten => orig == Some(content)
    case Torn(left) => if fate.readable && orig.Some? then left == orig.value else orig == Some(content)
  }

  /** Each of the n files written is mended, and a write that broke off after them left
      what was there. */
  ghost predicate Mended(d: Disk, dir: string, files: seq<GeneratedFile>, fates: seq<Fate>, n: nat)
    requires n <= |files| == |fates|
  {
    && (forall j :: 0 <= j < n ==> MendedFile(Lookup(d, Full(dir, files[j].path)), files[j].content, fates[j]))
    && (n < |files| && fates[n].mkdir && fates[n].write.Torn? ==> Lookup(d, Full(dir, files[n].path)) == Some(fates[n].write.left))
  }

  lemma {:induction false} DistinctPrior(d: Disk, dir: string, files: seq<GeneratedFile>, j: nat, i: nat)
    requires i <= |files| && j < |files| && DistinctPaths(files)
    ensures Prior(d, dir, files, files[j].path, i) == if j < i then Some(files[j].content) else Lookup(d, Full(dir, files[j].path))
  {
    if i > 0 {
      DistinctPrior(d, dir, files, j, i - 1);
    }
  }

  /** With distinct paths a path ends with what the one undoing of it left. */
  lemma {:induction false} DistinctEndsWith(d: Disk, dir: string, files: seq<GeneratedFile>, fates: seq<Fate>, n: nat, k: nat, j: nat)
    requires k <= n <= |files| == |fates| && j < |files| && DistinctPaths(files)
    ensures var orig := Lookup(d, Full(dir, files[j].path));
            var kept := if fates[j].readable then orig else None;
            var held := if n == j && fates[n].mkdir && fates[n].write.Torn? then Some(fates[n].write.left)
                        else if j < n then Some(files[j].content) else orig;
            EndsWith(d, dir, files, fates, n, k, files[j].path) == if j < k then UndoLeaves(kept, fates[j].undo, held) else held
  {
    hide UndoLeaves, Lookup, Full;
    DistinctPrior(d, dir, files, j, n);
    DistinctPrior(d, dir, files, j, j);
    if k > 0 {
      DistinctEndsWith(d, dir, files, fates, n, k - 1, j);
    }
  }

  lemma {:induction false} DistinctEndsAsBefore(d: Disk, dir: string, files: seq<GeneratedFile>, fates: seq<Fate>, n: nat)
    requires n <= |files| == |fates| && DistinctPaths(files)
    ensures EndsAsBefore(d, dir, files, fates, n, n) <==> Mended(d, dir, files, fates, n)
  {
    hide EndsWith, Lookup, Full;
    forall j | 0 <= j < |files|
      ensures var orig := Lookup(d, Full(dir, files[j].path));
              EndsWith(d, dir, files, fates, n, n, files[j].path) == orig <==>
                if j < n then MendedFile(orig, files[j].content, fates[j])
                else n == j && fates[n].mkdir && fates[n].write.Torn? ==> orig == Some(fates[n].write.left)
    {
      DistinctEndsWith(d, dir, files, fates, n, n, j);
    }
  }

  lemma {:induction false} DistinctRecoverable(d: Disk, dir: string, files: seq<GeneratedFile>, fates: seq<Fate>, n: nat)
    requires n <= |files| == |fates| && DistinctPaths(files)
    ensures Recoverable(d, dir, files, fates, n) <==> forall j :: 0 <= j < n ==> fates[j].readable || Full(dir, files[j].path) !in d
  {
    hide Full;
    forall j | 0 <= j < n
      ensures Last(files, n, j) && Prior(d, dir, files, files[j].path, j) == Lookup(d, Full(dir, files[j].path))
    {
      DistinctPrior(d, dir, files, j, j);
    }
  }

  /** All or nothing: with no path twice, a call that fails leaves the disk as it was exactly
      when every file it wrote is mended, and one that succeeds leaves a pack that loads, with
      the new files laid over the old. */
  lemma {:induction false} AllOrNothing(d: Disk, dir: string, files: seq<GeneratedFile>, fates: seq<Fate>, loads: (Disk, string) -> bool)
    requires |files| == |fates| && DistinctPaths(files)
    ensures var (e, after) := Add(d, dir, files, fates, loads);
            if e.Some? then after == d <==> Accepted(files) ==> Mended(d, dir, files, fates, Reached(fates))
            else loads(after, dir)
                 && (forall i :: 0 <= i < |files| ==> Lookup(after, Full(dir, files[i].path)) == Some(files[i].content))
                 && (forall full :: !Mentions(files, dir, |files|, full) ==> Lookup(after, full) == Lookup(d, full))
  {
    hide EndsAsBefore, Mended, Undone;
    FailureRestoresExactly(d, dir, files, fates, loads);
    DistinctEndsAsBefore(d, dir, files, fates, Reached(fates));
    OverlaidAt(d, dir, files, |files|);
    assert forall i :: 0 <= i < |files| ==> Last(files, |files|, i);
  }

  /** So a failed call whose writes do not break off, whose undoing works, and that could
      read every file there was, leaves the disk as it was. */
  lemma {:induction false} TidyCallsAreUndone(d: Disk, dir: string, files: seq<GeneratedFile>, fates: seq<Fate>, loads: (Disk, string) -> bool)
    requires |files| == |fates| && DistinctPaths(files) && Tidy(fates)
    requires forall j :: 0 <= j < |files| && Full(dir, files[j].path) in d ==> fates[j].readable
    ensures Add(d, dir, files, fates, loads).0.Some? ==> Add(d, dir, files, fates, loads).1 == d
  {
    hide Add;
    AllOrNothing(d, dir, files, fates, loads);
  }

  /** A call fails exactly when a path is refused, a step fails, or the merged pack does not
      load. */
  lemma {:induction false} FailsExactly(d: Disk, dir: string, files: seq<GeneratedFile>, fates: seq<Fate>, loads: (Disk, string) -> bool)
    requires |files| == |fates|
    ensures Add(d, dir, files, fates, loads).0.None? <==>
              && (forall i :: 0 <= i < |files| ==> files[i].path != "campaign.md" && IsAllowedPackFilePath(files[i].path))
              && (forall i :: 0 <= i < |files| ==> fates[i].Succeeds())
              && loads(Overlaid(d, dir, files, |files|), dir)
  {
    var e := FirstPathError(files, PathError);
    if e.None? {
      forall i | 0 <= i < |files| ensures files[i].path != "campaign.md" && IsAllowedPackFilePath(files[i].path) {
        assert PathError(files[i]).None?;
      }
    } else {
      var i :| 0 <= i < |files| && PathError(files[i]).Some?;
    }
  }

  predicate PathRefused(path: string) { path == "campaign.md" || !IsAllowedPackFilePath(path) }

  /** Why a call fails: the first path refused, or else the first file with a failing step, or
      else the merged pack; and nothing is written when a path is refused. */
  lemma {:induction false} WhyItFails(d: Disk, dir: string, files: seq<GeneratedFile>, fates: seq<Fate>, loads: (Disk, string) -> bool, i: nat)
    requires |files| == |fates| && i <= |files|
    ensures var (e, after) := Add(d, dir, files, fates, loads);
            && (i < |files| && PathRefused(files[i].path) && (forall j :: 0 <= j < i ==> !PathRefused(files[j].path)) ==>
                  after == d && e == Some(if files[i].path == "campaign.md" then CampaignFile else Disallowed(files[i].path)))
            && ((forall j :: 0 <= j < |files| ==> !PathRefused(files[j].path)) && (forall j :: 0 <= j < i ==> fates[j].mkdir && fates[j].write.Done?) ==>
                  && (i < |files| && !fates[i].mkdir ==> e == Some(MkdirFailed(files[i].path)))
                  && (i < |files| && fates[i].mkdir && !fates[i].write.Done? ==> e == Some(WriteFailed(files[i].path)))
                  && (i == |files| && !loads(Overlaid(d, dir, files, i), dir) ==> e == Some(DoesNotParse)))
  {
    hide IsAllowedPackFilePath, Undone, Overlaid;
    var first := FirstPathError(files, PathError);
    if first.Some? {
      var k :| 0 <= k < |files| && first == PathError(files[k]) && forall j :: 0 <= j < k ==> PathError(files[j]).None?;
      RefusedMeansError(files[k]);
      forall j | 0 <= j < |files| ensures PathRefused(files[j].path) <==> PathError(files[j]).Some? {
        RefusedMeansError(files[j]);
      }
    } else {
      forall j | 0 <= j < |files| ensures !PathRefused(files[j].path) {
        RefusedMeansError(files[j]);
      }
    }
  }

  lemma RefusedMeansError(f: GeneratedFile)
    ensures PathRefused(f.path) <==> PathError(f).Some?
  {
  }

  const FINE := Fate(true, true, Done, Done)

  /** Undoing runs oldest first, so a path given twice is left with the first of the new
      contents, not the old one. */
  lemma {:induction false} ARepeatedPathIsNotRestored(dir: string, loads: (Disk, string) -> bool)
    requires !loads(map[Full(dir, "locations/inn.md") := "newer"], dir)
    ensures var inn := Full(dir, "locations/inn.md");
            var files := [GeneratedFile("locations/inn.md", "new"), GeneratedFile("locations/inn.md", "newer")];
            Add(map[inn := "old"], dir, files, [FINE, FINE], loads) == (Some(DoesNotParse), map[inn := "new"])
  {
    var inn := Full(dir, "locations/inn.md");
    var files := [GeneratedFile("locations/inn.md", "new"), GeneratedFile("locations/inn.md", "newer")];
    var d: Disk := map[inn := "old"];
    assert IsSlug("locations/inn.md"[10..13]);
    assert FirstPathError(files[1..], PathError).None?;
    assert Reached([FINE, FINE]) == 2;
    assert Overlaid(d, dir, files, 1) == map[inn := "new"];
    assert Overlaid(d, dir, files, 2) == map[inn := "newer"];
    assert Undone(d, dir, files, [FINE, FINE], 2, 1) == map[inn := "old"];
    assert Undone(d, dir, files, [FINE, FINE], 2, 2) == map[inn := "new"];
  }

  /** A file that is there but cannot be read is taken for a new one, and removed. */
  lemma {:induction false} AnUnreadableFileIsLost(dir: string, loads: (Disk, string) -> bool)
    requires !loads(map[Full(dir, "locations/inn.md") := "new"], dir)
    ensures var inn := Full(dir, "locations/inn.md");
            Add(map[inn := "old"], dir, [GeneratedFile("locations/inn.md", "new")], [FINE.(readable := false)], loads)
              == (Some(DoesNotParse), map[])
  {
    var inn := Full(dir, "locations/inn.md");
    var files := [GeneratedFile("locations/inn.md", "new")];
    var fates := [FINE.(readable := false)];
    var d: Disk := map[inn := "old"];
    assert IsSlug("locations/inn.md"[10..13]);
    assert FirstPathError(files, PathError).None?;
    assert Reached(fates) == 1;
    assert Overlaid(d, dir, files, 1) == map[inn := "new"];
    assert Undone(d, dir, files, fates, 1, 1) == map[];
  }

  /** A write that breaks off is not undone: what it left stays. */
  lemma {:induction false} ATornWriteIsLeft(dir: string, loads: (Disk, string) -> bool)
    ensures var inn := Full(dir, "locations/inn.md");
            Add(map[inn := "old"], dir, [GeneratedFile("locations/inn.md", "new")], [FINE.(write := Torn(""))], loads)
              == (Some(WriteFailed("locations/inn.md")), map[inn := ""])
  {
    var inn := Full(dir, "locations/inn.md");
    var files := [GeneratedFile("locations/inn.md", "new")];
    var fates := [FINE.(write := Torn(""))];
    assert IsSlug("locations/inn.md"[10..13]);
    assert FirstPathError(files, PathError).None?;
    assert Reached(fates) == 0;
    var d: Disk := map[inn := "old"];
    assert Overlaid(d, dir, files, 0) == d;
    assert Stopped(d, dir, files, fates, 0) == map[inn := ""];
    assert Undone(d, dir, files, fates, 0, 0) == map[inn := ""];
  }

  // ----- New packs

  /** Whatever becomes of it, writing a new pack changes nothing outside its directory. */
  lemma {:induction false} InstallStaysInItsDirectory(d: Disk, root: string, slug: string, files: seq<GeneratedFile>, made: bool,
                                                      fates: seq<Fate>, survivors: set<string>, loads: (Disk, string) -> bool, full: string)
    requires |files| == |fates| && !Under(Full(root, slug), full)
    ensures Lookup(Install(d, root, slug, files, made, fates, survivors, loads).1, full) == Lookup(d, full)
  {
    var dir := Full(root, slug);
    forall i | 0 <= i < |files| ensures Full(dir, files[i].path) != full {
      FullIsInjective(dir, files[i].path, files[i].path);
    }
    OverlaidAt(d, dir, files, |files|);
    StoppedElsewhere(d, dir, files, fates, Reached(fates), full);
  }

  /** Deleting the directory leaves the disk as it was exactly when whatever was in it
      before survives, and whatever else survives is as it was. */
  lemma {:induction false} RemovedExactly(d: Disk, dir: string, files: seq<GeneratedFile>, fates: seq<Fate>, n: nat, survivors: set<string>)
    requires n <= |files| == |fates|
    ensures RemoveAll(Stopped(d, dir, files, fates, n), dir, survivors) == d <==>
              && (forall full :: full in d && Under(dir, full) ==> full in survivors)
              && (forall i :: 0 <= i < |files| && Full(dir, files[i].path) in survivors ==>
                    EndsWith(d, dir, files, fates, n, 0, files[i].path) == Lookup(d, Full(dir, files[i].path)))
  {
    hide Stopped, EndsWith, Full, Under;
    var left := Stopped(d, dir, files, fates, n);
    var after := RemoveAll(left, dir, survivors);
    forall full ensures Lookup(after, full) == if Under(dir, full) && full !in survivors then None else Lookup(left, full) {}
    forall i | 0 <= i < |files|
      ensures Under(dir, Full(dir, files[i].path))
      ensures Lookup(left, Full(dir, files[i].path)) == EndsWith(d, dir, files, fates, n, 0, files[i].path)
    {
      FullIsInjective(dir, files[i].path, files[i].path);
      UndoneEndsWith(d, dir, files, fates, n, 0, files[i].path);
    }
    forall full | !Mentions(files, dir, |files|, full) ensures Lookup(left, full) == Lookup(d, full) {
      StoppedElsewhere(d, dir, files, fates, n, full);
    }
    if (forall full :: full in d && Under(dir, full) ==> full in survivors)
       && (forall i :: 0 <= i < |files| && Full(dir, files[i].path) in survivors ==>
             EndsWith(d, dir, files, fates, n, 0, files[i].path) == Lookup(d, Full(dir, files[i].path)))
    {
      SameDisk(after, d);
    }
  }

  ghost predicate NewAccepted(slug: string, files: seq<GeneratedFile>, made: bool) {
    SafeSlug(slug) && made && forall i :: 0 <= i < |files| ==> NewPathError(files[i]).None?
  }

  /** A failed new pack leaves the disk as it was exactly when it was refused before it was
      begun, or nothing was in its directory that deleting it took away and what deleting
      left there is as it was. */
  lemma {:induction false} InstallRestoresExactly(d: Disk, root: string, slug: string, files: seq<GeneratedFile>, made: bool,
                                                  fates: seq<Fate>, survivors: set<string>, loads: (Disk, string) -> bool)
    requires |files| == |fates|
    ensures var (e, after) := Install(d, root, slug, files, made, fates, survivors, loads);
            var dir := Full(root, slug);
            e.Some? ==> (after == d <==> NewAccepted(slug, files, made) ==>
              && (forall full :: full in d && Under(dir, full) ==> full in survivors)
              && (forall i :: 0 <= i < |files| && Full(dir, files[i].path) in survivors ==>
                    EndsWith(d, dir, files, fates, Reached(fates), 0, files[i].path) == Lookup(d, Full(dir, files[i].path))))
  {
    hide EndsWith, RemoveAll, Stopped, Under;
    RemovedExactly(d, Full(root, slug), files, fates, Reached(fates), survivors);
  }

  /** So when deleting works, a failed new pack leaves the disk as it was exactly when its
      directory held nothing before: anything that was there is deleted with it. */
  lemma {:induction false} DeletedWithIt(d: Disk, root: string, slug: string, files: seq<GeneratedFile>, fates: seq<Fate>, loads: (Disk, string) -> bool)
    requires |files| == |fates| && NewAccepted(slug, files, true)
    ensures var (e, after) := Install(d, root, slug, files, true, fates, {}, loads);
            e.Some? ==> (after == d <==> forall full :: full in d ==> !Under(Full(root, slug), full))
  {
    hide Install, Under, EndsWith;
    InstallRestoresExactly(d, root, slug, files, true, fates, {}, loads);
  }

  /** What a successful new pack leaves: a pack that loads, each path with its last content,
      and every other file as it was. */
  lemma {:induction false} InstalledPack(d: Disk, root: string, slug: string, files: seq<GeneratedFile>, made: bool,
                                         fates: seq<Fate>, survivors: set<string>, loads: (Disk, string) -> bool)
    requires |files| == |fates|
    ensures var (e, after) := Install(d, root, slug, files, made, fates, survivors, loads);
            var dir := root + "/" + slug;
            e.None? ==>
              && loads(after, dir)
              && (forall i :: 0 <= i && Last(files, |files|, i) ==> Lookup(after, Full(dir, files[i].path)) == Some(files[i].content))
              && (forall full :: !Mentions(files, dir, |files|, full) ==> Lookup(after, full) == Lookup(d, full))
  {
    hide Overlaid, RemoveAll;
    OverlaidAt(d, Full(root, slug), files, |files|);
  }

  /** A new pack succeeds exactly when its name is one plain path component, every path is
      allowed, every step works, and the pack loads. */
  lemma {:induction false} InstallFailsExactly(d: Disk, root: string, slug: string, files: seq<GeneratedFile>, made: bool,
                                               fates: seq<Fate>, survivors: set<string>, loads: (Disk, string) -> bool)
    requires |files| == |fates|
    ensures Install(d, root, slug, files, made, fates, survivors, loads).0.None? <==>
              && slug != "" && slug != "." && slug != ".." && '/' !in slug && '\\' !in slug
              && (forall i :: 0 <= i < |files| ==> IsAllowedPackFilePath(files[i].path))
              && made && (forall i :: 0 <= i < |files| ==> fates[i].mkdir && fates[i].write.Done?)
              && loads(Overlaid(d, root + "/" + slug, files, |files|), root + "/" + slug)
  {
    hide Overlaid, RemoveAll, IsAllowedPackFilePath;
    forall i | 0 <= i < |files| ensures NewPathError(files[i]).None? <==> IsAllowedPackFilePath(files[i].path) {}
    var n := Reached(fates);
    assert n < |fates| ==> !fates[n].Succeeds();
  }

  /** And why it fails, when it does, in the order things are looked at. */
  lemma {:induction false} WhyInstallFails(d: Disk, root: string, slug: string, files: seq<GeneratedFile>, made: bool,
                                           fates: seq<Fate>, survivors: set<string>, loads: (Disk, string) -> bool)
    requires |files| == |fates|
    ensures var (e, after) := Install(d, root, slug, files, made, fates, survivors, loads);
            && (e == Some(UnsafeSlug) <==> slug == "" || slug == "." || slug == ".." || '/' in slug || '\\' in slug)
            && (e.Some? && (e.value.UnsafeSlug? || e.value.Disallowed? || !made) ==> after == d)
            && (e.Some? && e.value.Disallowed? ==> !IsAllowedPackFilePath(e.value.path))
            && (e.Some? && e.value.DoesNotParse? ==> !loads(Overlaid(d, root + "/" + slug, files, |files|), root + "/" + slug))
  {
    hide Overlaid, RemoveAll, IsAllowedPackFilePath;
  }
}
