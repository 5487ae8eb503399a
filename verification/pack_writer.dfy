/** The pack writers at work on a file system, one file at a time. */
module PackWriter {
  import opened PackModel

  class FileSystem {
    var files: Disk

    /** The file's content, if it is there and can be read. */
    method ReadFile(full: string, readable: bool) returns (content: Option<string>)
      ensures content == if readable then Lookup(files, full) else None
    {
      content := if readable && full in files then Some(files[full]) else None;
    }

    method WriteFile(full: string, content: string, fate: WriteFate) returns (ok: bool)
      modifies this
      ensures ok <==> fate.Done?
      ensures files == match fate
                       case Done => old(files)[full := content]
                       case Unwritten => old(files)
                       case Torn(left) => old(files)[full := left]
    {
      ok := fate.Done?;
      match fate
      case Done => files := files[full := content];
      case Unwritten =>
      case Torn(left) => files := files[full := left];
    }

    method Remove(full: string)
      modifies this
      ensures files == old(files) - {full}
    {
      files := files - {full};
    }

    /** Deletes everything under the directory that can be deleted. */
    method RemoveTree(dir: string, survivors: set<string>)
      modifies this
      ensures files == RemoveAll(old(files), dir, survivors)
    {
      files := map p | p in files && (!Under(dir, p) || p in survivors) :: files[p];
    }
  }

  datatype WrittenFile = WrittenFile(full: string, original: Option<string>)

  /** The first path the check complains of. */
  method CheckPaths(files: seq<GeneratedFile>, check: GeneratedFile -> Option<Error>) returns (err: Option<Error>)
    ensures err == FirstPathError(files, check)
  {
    for i := 0 to |files|
      invariant FirstPathError(files, check) == FirstPathError(files[i..], check)
    {
      assert files[i..][1..] == files[i + 1..];
      err := check(files[i]);
      if err.Some? {
        return;
      }
    }
    err := None;
  }

  /** The record of what was written, so far as needed to undo it. */
  ghost predicate Records(written: seq<WrittenFile>, d: Disk, dir: string, files: seq<GeneratedFile>, fates: seq<Fate>)
    requires |files| == |fates|
  {
    && |written| <= |files|
    && forall i :: 0 <= i < |written| ==> written[i] == WrittenFile(Full(dir, files[i].path), Kept(d, dir, files, fates, i))
  }

  /** Undoes the writes, oldest first. */
  method Rollback(fs: FileSystem, written: seq<WrittenFile>, ghost d: Disk, dir: string, files: seq<GeneratedFile>, fates: seq<Fate>)
    requires |files| == |fates| && Records(written, d, dir, files, fates)
    requires fs.files == Stopped(d, dir, files, fates, |written|)
    modifies fs
    ensures fs.files == Undone(d, dir, files, fates, |written|, |written|)
  {
    hide Stopped, Kept;
    for i := 0 to |written|
      invariant fs.files == Undone(d, dir, files, fates, |written|, i)
    {
      var w := written[i];
      if w.original.Some? {
        var _ := fs.WriteFile(w.full, w.original.value, fates[i].undo);
      } else if fates[i].undo.Done? {
        fs.Remove(w.full);
      }
    }
  }

  /** Writes the files in turn until a step fails. */
  method WriteAll(fs: FileSystem, dir: string, files: seq<GeneratedFile>, fates: seq<Fate>)
    returns (written: seq<WrittenFile>, err: Option<Error>)
    requires |files| == |fates|
    modifies fs
    ensures Records(written, old(fs.files), dir, files, fates) && |written| == Reached(fates)
    ensures fs.files == Stopped(old(fs.files), dir, files, fates, |written|)
    ensures err == if |written| == |files| then None else Some(StopError(files, fates, |written|))
  {
    hide Kept;
    ghost var d := fs.files;
    written := [];
    for i := 0 to |files|
      invariant |written| == i && Records(written, d, dir, files, fates)
      invariant fs.files == Overlaid(d, dir, files, i)
      invariant forall k :: 0 <= k < i ==> fates[k].Succeeds()
    {
      var f, fate, full := files[i], fates[i], Full(dir, files[i].path);
      var original := fs.ReadFile(full, fate.readable);
      KeptIs(d, dir, files, fates, i);
      if !fate.Succeeds() {
        ReachedIs(fates, i);
      }
      if !fate.mkdir {
        return written, Some(MkdirFailed(f.path));
      }
      var ok := fs.WriteFile(full, f.content, fate.write);
      if !ok {
        return written, Some(WriteFailed(f.path));
      }
      written := written + [WrittenFile(full, original)];
    }
    ReachedIs(fates, |files|);
    err := None;
  }

  lemma KeptIs(d: Disk, dir: string, files: seq<GeneratedFile>, fates: seq<Fate>, i: nat)
    requires i < |files| == |fates|
    ensures Kept(d, dir, files, fates, i)
            == if fates[i].readable then Lookup(Overlaid(d, dir, files, i), Full(dir, files[i].path)) else None
  {
  }

  lemma ReachedIs(fates: seq<Fate>, n: nat)
    requires n <= |fates| && (forall i :: 0 <= i < n ==> fates[i].Succeeds()) && (n < |fates| ==> !fates[n].Succeeds())
    ensures Reached(fates) == n
  {
  }

  /** Adds reviewed files to an existing pack, undoing its writes when it fails. */
  method AddFilesAndValidate(fs: FileSystem, dir: string, files: seq<GeneratedFile>, fates: seq<Fate>, loads: (Disk, string) -> bool)
    returns (err: Option<Error>)
    requires |files| == |fates|
    modifies fs
    ensures (err, fs.files) == Add(old(fs.files), dir, files, fates, loads)
  {
    ghost var d := fs.files;
    err := CheckPaths(files, PathError);
    if err.Some? {
      return;
    }
    var written;
    written, err := WriteAll(fs, dir, files, fates);
    if err.None? && !loads(fs.files, dir) {
      err := Some(DoesNotParse);
    }
    if err.Some? {
      Rollback(fs, written, d, dir, files, fates);
    }
  }

  /** Writes a new pack, deleting its whole directory when it fails. */
  method WriteAndValidate(fs: FileSystem, root: string, slug: string, files: seq<GeneratedFile>, made: bool, fates: seq<Fate>,
                          survivors: set<string>, loads: (Disk, string) -> bool)
    returns (err: Option<Error>)
    requires |files| == |fates|
    modifies fs
    ensures (err, fs.files) == Install(old(fs.files), root, slug, files, made, fates, survivors, loads)
  {
    if !SafeSlug(slug) {
      return Some(UnsafeSlug);
    }
    var dir := Full(root, slug);
    err := CheckPaths(files, NewPathError);
    if err.Some? {
      return;
    }
    if !made {
      return Some(MkdirFailed(""));
    }
    var written;
    written, err := WriteAll(fs, dir, files, fates);
    if err.None? && !loads(fs.files, dir) {
      err := Some(DoesNotParse);
    }
    if err.Some? {
      fs.RemoveTree(dir, survivors);
    }
  }
}
