/** Writing generated files into a campaign pack: which paths are let through, and what a
    call leaves on disk when a step of it fails. */
module PackModel {

  datatype Option<T> = None | Some(value: T)

  /** File contents by full path.  Directories are not recorded. */
  type Disk = map<string, string>

  datatype GeneratedFile = GeneratedFile(path: string, content: string)

  // ----- Paths

  predicate IsLowerAlnum(c: char) { 'a' <= c <= 'z' || '0' <= c <= '9' }

  /** A letter or digit, then letters, digits and hyphens. */
  predicate IsSlug(s: string) {
    s != "" && IsLowerAlnum(s[0]) && forall i :: 0 <= i < |s| ==> IsLowerAlnum(s[i]) || s[i] == '-'
  }

  /** A markdown file directly under the folder. */
  predicate IsPageOf(folder: string, p: string) {
    && |p| >= |folder| + 4
    && p[..|folder| + 1] == folder + "/" && p[|p| - 3..] == ".md" && IsSlug(p[|folder| + 1..|p| - 3])
  }

  predicate IsAllowedPackFilePath(p: string) {
    p == "campaign.md" || IsPageOf("locations", p) || IsPageOf("npcs", p) || IsPageOf("encounters", p)
  }

  function Full(dir: string, path: string): string { dir + "/" + path }

  predicate Under(dir: string, full: string) { |full| > |dir| && full[..|dir| + 1] == dir + "/" }

  predicate SafeSlug(slug: string) { slug != "" && slug != "." && slug != ".." && '/' !in slug && '\\' !in slug }

  // ----- What a call meets

  /** How writing one file ends: done, refused outright, or broken off leaving something
      else behind. */
  datatype WriteFate = Done | Unwritten | Torn(left: string)

  /** How the steps for one file fare: whether it can be read should it exist, whether its
      directory can be made, how its write ends, and how undoing that ends. */
  datatype Fate = Fate(readable: bool, mkdir: bool, write: WriteFate, undo: WriteFate) {
    predicate Succeeds() { mkdir && write.Done? }
  }

  datatype Error =
    | UnsafeSlug | CampaignFile | Disallowed(path: string)
    | MkdirFailed(path: string) | WriteFailed(path: string) | DoesNotParse

  function Lookup(d: Disk, full: string): Option<string> { if full in d then Some(d[full]) else None }

  function Put(d: Disk, full: string, content: Option<string>): Disk {
    if content.Some? then d[full := content.value] else d - {full}
  }

  /** The disk after the first n files were written over it. */
  function Overlaid(d: Disk, dir: string, files: seq<GeneratedFile>, n: nat): Disk
    requires n <= |files|
  {
    if n == 0 then d else Overlaid(d, dir, files, n - 1)[Full(dir, files[n - 1].path) := files[n - 1].content]
  }

  /** What is kept for undoing file i. */
  function Kept(d: Disk, dir: string, files: seq<GeneratedFile>, fates: seq<Fate>, i: nat): Option<string>
    requires i < |files| == |fates|
  {
    if fates[i].readable then Lookup(Overlaid(d, dir, files, i), Full(dir, files[i].path)) else None
  }

  /** How far the writes get. */
  function Reached(fates: seq<Fate>): (n: nat)
    ensures n <= |fates| && (forall i :: 0 <= i < n ==> fates[i].Succeeds()) && (n < |fates| ==> !fates[n].Succeeds())
  {
    if fates == [] || !fates[0].Succeeds() then 0 else 1 + Reached(fates[1..])
  }

  /** The disk when writing stopped at file n. */
  function Stopped(d: Disk, dir: string, files: seq<GeneratedFile>, fates: seq<Fate>, n: nat): Disk
    requires n <= |files| == |fates|
  {
    var w := Overlaid(d, dir, files, n);
    if n < |files| && fates[n].mkdir && fates[n].write.Torn? then w[Full(dir, files[n].path) := fates[n].write.left] else w
  }

  function StopError(files: seq<GeneratedFile>, fates: seq<Fate>, n: nat): Error
    requires n <= |files| == |fates|
  {
    if n == |files| then DoesNotParse
    else if !fates[n].mkdir then MkdirFailed(files[n].path) else WriteFailed(files[n].path)
  }

  /** Undoing one write: what was kept is written back, which may break off too, or the
      new file is removed, which may fail. */
  function UndoOne(d: Disk, full: string, kept: Option<string>, fate: WriteFate): Disk {
    match fate
    case Done => Put(d, full, kept)
    case Unwritten => d
    case Torn(left) => if kept.Some? then d[full := left] else d
  }

  /** Of the n files written, the first k undone, oldest first. */
  function Undone(d: Disk, dir: string, files: seq<GeneratedFile>, fates: seq<Fate>, n: nat, k: nat): Disk
    requires k <= n <= |files| == |fates|
  {
    if k == 0 then Stopped(d, dir, files, fates, n)
    else UndoOne(Undone(d, dir, files, fates, n, k - 1), Full(dir, files[k - 1].path),
                 Kept(d, dir, files, fates, k - 1), fates[k - 1].undo)
  }

  function PathError(f: GeneratedFile): Option<Error> {
    if f.path == "campaign.md" then Some(CampaignFile)
    else if !IsAllowedPackFilePath(f.path) then Some(Disallowed(f.path)) else None
  }

  /** The first complaint about a path. */
  function FirstPathError(files: seq<GeneratedFile>, check: GeneratedFile -> Option<Error>): (e: Option<Error>)
    ensures e.None? <==> forall i :: 0 <= i < |files| ==> check(files[i]).None?
    ensures e.Some? ==> exists i :: 0 <= i < |files| && e == check(files[i]) && forall j :: 0 <= j < i ==> check(files[j]).None?
  {
    if files == [] then None
    else if check(files[0]).Some? then check(files[0])
    else
      var rest := FirstPathError(files[1..], check);
      assert forall i :: 0 <= i < |files[1..]| ==> files[1..][i] == files[i + 1];
      rest
  }

  /** Adding files to an existing pack: the error, if any, and the disk left behind. */
  function Add(d: Disk, dir: string, files: seq<GeneratedFile>, fates: seq<Fate>, loads: (Disk, string) -> bool): (Option<Error>, Disk)
    requires |files| == |fates|
  {
    var e := FirstPathError(files, PathError);
    var n := Reached(fates);
    if e.Some? then (e, d)
    else if n == |files| && loads(Overlaid(d, dir, files, n), dir) then (None, Overlaid(d, dir, files, n))
    else (Some(StopError(files, fates, n)), Undone(d, dir, files, fates, n, n))
  }

  /** Deleting a directory, but for the survivors: files that could not be deleted. */
  function RemoveAll(d: Disk, dir: string, survivors: set<string>): Disk {
    map p | p in d && (!Under(dir, p) || p in survivors) :: d[p]
  }

  function NewPathError(f: GeneratedFile): Option<Error> {
    if !IsAllowedPackFilePath(f.path) then Some(Disallowed(f.path)) else None
  }

  /** Writing a new pack under root: any failure after its directory is made deletes the
      directory, as far as deleting works. */
  function Install(d: Disk, root: string, slug: string, files: seq<GeneratedFile>, made: bool, fates: seq<Fate>,
                   survivors: set<string>, loads: (Disk, string) -> bool): (Option<Error>, Disk)
    requires |files| == |fates|
  {
    var dir := Full(root, slug);
    var e := FirstPathError(files, NewPathError);
    var n := Reached(fates);
    if !SafeSlug(slug) then (Some(UnsafeSlug), d)
    else if e.Some? then (e, d)
    else if !made then (Some(MkdirFailed("")), d)
    else if n == |files| && loads(Overlaid(d, dir, files, n), dir) then (None, Overlaid(d, dir, files, n))
    else (Some(StopError(files, fates, n)), RemoveAll(Stopped(d, dir, files, fates, n), dir, survivors))
  }
}
