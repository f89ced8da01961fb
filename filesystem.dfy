/** The part of the file system the downloader touches, as a value: which
    files exist and how many bytes each holds, which directories exist, and
    which files are held open by another program (those cannot be removed or
    overwritten). Each operation returns the new state or the exception the
    corresponding `pathlib`/`shutil` call raises. */
module FileSystem {
  import opened Common
  import opened Strings

  /** An absolute path: the directory components from the root, then the name. */
  datatype FilePath = FilePath(dir: seq<string>, name: string)

  function Components(p: FilePath): (c: seq<string>)
    ensures |c| >= 1
  {
    p.dir + [p.name]
  }

  /** The entry whose component list is `d`. */
  function PathOf(d: seq<string>): (p: FilePath)
    requires |d| >= 1
    ensures Components(p) == d
  {
    FilePath(d[..|d| - 1], d[|d| - 1])
  }

  lemma PathOfComponents(p: FilePath)
    ensures PathOf(Components(p)) == p
  {
  }

  /** `str()` of a directory: `/`, then each component followed by `/`. */
  function DirText(d: seq<string>): (r: string)
    ensures |r| >= 1 && r[0] == '/'
  {
    if |d| == 0 then "/" else DirText(d[..|d| - 1]) + d[|d| - 1] + "/"
  }

  /** `str(path)` of a file. */
  function Text(p: FilePath): string {
    DirText(p.dir) + p.name
  }

  /** A piece of text inside any directory component is inside the path text. */
  lemma {:induction false} ComponentInDirText(d: seq<string>, k: nat, t: string)
    requires k < |d| && Contains(d[k], t)
    ensures Contains(DirText(d), t)
    decreases |d|
  {
    var last := |d| - 1;
    if k == last {
      ContainsInConcat(DirText(d[..last]), d[k], "/", t);
    } else {
      ComponentInDirText(d[..last], k, t);
      ContainsInConcat([], DirText(d[..last]), d[last] + "/", t);
      assert [] + DirText(d[..last]) + (d[last] + "/") == DirText(d);
    }
  }

  /** A piece of text inside a directory component or the name is inside `str(path)`. */
  lemma ComponentInText(p: FilePath, k: nat, t: string)
    requires k < |Components(p)| && Contains(Components(p)[k], t)
    ensures Contains(Text(p), t)
  {
    if k < |p.dir| {
      assert Components(p)[k] == p.dir[k];
      ComponentInDirText(p.dir, k, t);
      ContainsInConcat([], DirText(p.dir), p.name, t);
      assert [] + DirText(p.dir) + p.name == Text(p);
    } else {
      ContainsInConcat(DirText(p.dir), p.name, [], t);
      assert DirText(p.dir) + p.name + [] == Text(p);
    }
  }

  lemma TextEndsWithName(p: FilePath)
    ensures EndsWith(Text(p), p.name)
  {
    EndsWithAppend(DirText(p.dir), p.name);
  }

  datatype Fs = Fs(files: map<FilePath, nat>, dirs: set<seq<string>>, locked: set<FilePath>)

  /** The root exists, every directory's parent exists, every file lies in an
      existing directory, and no path is both a file and a directory. */
  predicate Valid(fs: Fs) {
    [] in fs.dirs
    && (forall d :: d in fs.dirs && |d| > 0 ==> d[..|d| - 1] in fs.dirs)
    && (forall f :: f in fs.files ==> f.dir in fs.dirs && Components(f) !in fs.dirs)
  }

  /** Some ancestor of `d`, or `d` itself, is a file: the `k` leading components name a file. */
  predicate FileAtPrefix(fs: Fs, d: seq<string>, k: int) {
    1 <= k <= |d| && PathOf(d[..k]) in fs.files
  }

  function Prefixes(d: seq<string>): (r: set<seq<string>>)
    ensures forall k :: 0 <= k <= |d| ==> d[..k] in r
    ensures forall e :: e in r ==> |e| <= |d| && e == d[..|e|]
  {
    set k | 0 <= k <= |d| :: d[..k]
  }

  /** `Path(d).mkdir(parents=True, exist_ok=True)`: creates `d` and its
      missing ancestors; raises when one of them is a file. */
  function MakeDirs(fs: Fs, d: seq<string>): (r: Result<Fs>)
    ensures r.Err? <==> exists k :: 1 <= k <= |d| && FileAtPrefix(fs, d, k)
    ensures r.Err? ==> r.failure == FileExists
    ensures r.Ok? ==> r.value == fs.(dirs := fs.dirs + Prefixes(d))
  {
    if exists k :: 1 <= k <= |d| && FileAtPrefix(fs, d, k) then Err(FileExists)
    else Ok(fs.(dirs := fs.dirs + Prefixes(d)))
  }

  lemma MakeDirsValid(fs: Fs, d: seq<string>)
    requires Valid(fs) && MakeDirs(fs, d).Ok?
    ensures Valid(MakeDirs(fs, d).value)
    ensures d in MakeDirs(fs, d).value.dirs
  {
    var n := MakeDirs(fs, d).value;
    forall e | e in n.dirs && |e| > 0 ensures e[..|e| - 1] in n.dirs {
      if e in Prefixes(d) {
        assert e[..|e| - 1] == d[..|e| - 1];
      }
    }
    forall f | f in n.files ensures Components(f) !in n.dirs {
      if Components(f) in Prefixes(d) {
        var k := |Components(f)|;
        assert Components(f) == d[..k];
        PathOfComponents(f);
        assert FileAtPrefix(fs, d, k);
      }
    }
    assert d == d[..|d|];
  }

  /** The file `shutil.copy(src, dst)` writes: inside `dst` when that is a
      directory (the root always is), else `dst` itself. */
  function CopyTarget(fs: Fs, src: FilePath, dst: seq<string>): FilePath {
    if dst in fs.dirs || |dst| == 0 then FilePath(dst, src.name) else PathOf(dst)
  }

  /** `shutil.copy(src, dst)`: the target gets the source's bytes. */
  function Copy(fs: Fs, src: FilePath, dst: seq<string>): (r: Result<Fs>)
    ensures r.Ok? <==> (src in fs.files && CopyTarget(fs, src, dst) != src
      && CopyTarget(fs, src, dst).dir in fs.dirs
      && Components(CopyTarget(fs, src, dst)) !in fs.dirs
      && CopyTarget(fs, src, dst) !in fs.locked)
    ensures r.Ok? ==> r.value == fs.(files := fs.files[CopyTarget(fs, src, dst) := fs.files[src]])
  {
    var target := CopyTarget(fs, src, dst);
    if src !in fs.files || target.dir !in fs.dirs then Err(NotFound)
    else if target == src then Err(SameFile)
    else if Components(target) in fs.dirs then Err(IsDirectory)
    else if target in fs.locked then Err(PermissionDenied)
    else Ok(fs.(files := fs.files[target := fs.files[src]]))
  }

  /** `Path(p).unlink()`. */
  function Unlink(fs: Fs, p: FilePath): (r: Result<Fs>)
    ensures r.Ok? <==> p in fs.files && p !in fs.locked
    ensures r.Err? && p in fs.files ==> r.failure == PermissionDenied
    ensures r.Ok? ==> r.value == fs.(files := fs.files - {p})
  {
    if p !in fs.files then Err(NotFound)
    else if p in fs.locked then Err(PermissionDenied)
    else Ok(fs.(files := fs.files - {p}))
  }

  /** Opening `p` for writing and writing `size` bytes. */
  function Write(fs: Fs, p: FilePath, size: nat): (r: Result<Fs>)
    ensures r.Ok? <==> p.dir in fs.dirs && Components(p) !in fs.dirs && p !in fs.locked
    ensures r.Ok? ==> r.value == fs.(files := fs.files[p := size])
  {
    if p.dir !in fs.dirs then Err(NotFound)
    else if Components(p) in fs.dirs then Err(IsDirectory)
    else if p in fs.locked then Err(PermissionDenied)
    else Ok(fs.(files := fs.files[p := size]))
  }

  lemma CopyUnlinkWriteValid(fs: Fs, src: FilePath, dst: seq<string>, p: FilePath, size: nat)
    requires Valid(fs)
    ensures Copy(fs, src, dst).Ok? ==> Valid(Copy(fs, src, dst).value)
    ensures Unlink(fs, p).Ok? ==> Valid(Unlink(fs, p).value)
    ensures Write(fs, p, size).Ok? ==> Valid(Write(fs, p, size).value)
  {
  }

  /** `d` lies somewhere below (or is) `folder`. */
  predicate Under(folder: seq<string>, d: seq<string>) {
    |folder| <= |d| && d[..|folder|] == folder
  }

  /** One item `rglob("*")` yields: a path, and whether `is_file()` holds for it. */
  datatype Entry = Entry(path: FilePath, isFile: bool)

  /** Everything below `folder`: its files and its sub-directories at any depth. */
  function Listing(fs: Fs, folder: seq<string>): (r: set<Entry>)
    ensures forall e :: e in r && e.isFile ==> e.path in fs.files
    ensures forall e :: e in r && !e.isFile ==> e.path !in fs.files || Components(e.path) in fs.dirs
  {
    (set f | f in fs.files && Under(folder, f.dir) :: Entry(f, true))
    + (set d | d in fs.dirs && |d| > |folder| && Under(folder, d) :: Entry(PathOf(d), false))
  }

  /** `list(folder.rglob("*"))`: every entry below `folder` once, in an order
      the model leaves open. */
  method Rglob(fs: Fs, folder: seq<string>) returns (es: seq<Entry>)
    ensures forall e :: e in es <==> e in Listing(fs, folder)
    ensures forall i, j :: 0 <= i < j < |es| ==> es[i] != es[j]
  {
    es := Enumerate(Listing(fs, folder));
  }

  /** The entries of `all`, each once, picked one at a time. */
  method Enumerate(all: set<Entry>) returns (es: seq<Entry>)
    ensures forall e :: e in es <==> e in all
    ensures forall i, j :: 0 <= i < j < |es| ==> es[i] != es[j]
  {
    var rest := all;
    es := [];
    while rest != {}
      invariant rest <= all
      invariant forall e :: e in es <==> e in all && e !in rest
      invariant forall i, j :: 0 <= i < j < |es| ==> es[i] != es[j]
      decreases |rest|
    {
      var e :| e in rest;
      es := es + [e];
      rest := rest - {e};
    }
  }

  /** `g` is in `t` exactly when it is in `s`, and with the same size. */
  predicate Same(s: Fs, t: Fs, g: FilePath) {
    (g in s.files <==> g in t.files) && (g in s.files ==> t.files[g] == s.files[g])
  }

  /** What one step of a per-file loop does: the new state, or the exception
      that ends the loop. */
  type Step = (Fs, FilePath) -> Result<Fs>

  /** The state after `for f in files: step(f)`, stopping at the first exception. */
  function Fold(fs: Fs, files: seq<FilePath>, step: Step): Result<Fs>
    decreases |files|
  {
    if |files| == 0 then Ok(fs)
    else
      match Fold(fs, files[..|files| - 1], step)
      case Err(e) => Err(e)
      case Ok(s) => step(s, files[|files| - 1])
  }

  /** Continuing from an earlier outcome. */
  function FoldFrom(r: Result<Fs>, files: seq<FilePath>, step: Step): Result<Fs> {
    match r
    case Err(e) => Err(e)
    case Ok(s) => Fold(s, files, step)
  }

  /** Running over `a + b` is running over `a`, then over `b` from there. */
  lemma {:induction false} FoldAppend(fs: Fs, a: seq<FilePath>, b: seq<FilePath>, step: Step)
    ensures Fold(fs, a + b, step) == FoldFrom(Fold(fs, a, step), b, step)
    decreases |b|
  {
    if |b| == 0 {
      assert a + b == a;
    } else {
      var init := b[..|b| - 1];
      FoldAppend(fs, a, init, step);
      assert (a + b)[..|a + b| - 1] == a + init;
    }
  }

  /** A file no step touches keeps its presence and size through the loop. */
  lemma {:induction false} FoldUntouched(fs: Fs, files: seq<FilePath>, step: Step, g: FilePath)
    requires forall s: Fs, f :: f in files && step(s, f).Ok? ==> Same(s, step(s, f).value, g)
    ensures Fold(fs, files, step).Ok? ==> Same(fs, Fold(fs, files, step).value, g)
    decreases |files|
  {
    if |files| > 0 {
      var init := files[..|files| - 1];
      FoldUntouched(fs, init, step, g);
    }
  }

  /** A loop that ended normally ran every one of its steps normally: the
      `i`-th step started from the state left by the steps before it. */
  lemma FoldOkAt(fs: Fs, files: seq<FilePath>, step: Step, i: nat)
    requires i < |files| && Fold(fs, files, step).Ok?
    ensures Fold(fs, files[..i], step).Ok?
    ensures step(Fold(fs, files[..i], step).value, files[i]).Ok?
    ensures Fold(fs, files, step) ==
      Fold(step(Fold(fs, files[..i], step).value, files[i]).value, files[i + 1..], step)
  {
    assert files == files[..i] + ([files[i]] + files[i + 1..]);
    FoldAppend(fs, files[..i], [files[i]] + files[i + 1..], step);
    var s := Fold(fs, files[..i], step);
    if s.Ok? {
      FoldAppend(s.value, [files[i]], files[i + 1..], step);
      assert [files[i]][..0] == [];
    }
  }

  /** `for f in files: step(f)`. */
  method RunSteps(fs: Fs, files: seq<FilePath>, step: Step) returns (r: Result<Fs>)
    ensures r == Fold(fs, files, step)
  {
    var cur := fs;
    var i := 0;
    while i < |files|
      invariant 0 <= i <= |files|
      invariant Fold(fs, files[..i], step) == Ok(cur)
    {
      assert files[..i + 1][..i] == files[..i];
      r := step(cur, files[i]);
      if r.Err? {
        FoldAppend(fs, files[..i + 1], files[i + 1..], step);
        assert files[..i + 1] + files[i + 1..] == files;
        return;
      }
      cur := r.value;
      i := i + 1;
    }
    assert files[..i] == files;
    r := Ok(cur);
  }

  /** A loop whose every step keeps the folders keeps them. */
  lemma {:induction false} FoldKeepsDirs(fs: Fs, files: seq<FilePath>, step: Step)
    requires forall s: Fs, f :: f in files && step(s, f).Ok? ==> step(s, f).value.dirs == s.dirs
    ensures Fold(fs, files, step).Ok? ==> Fold(fs, files, step).value.dirs == fs.dirs
    decreases |files|
  {
    if |files| > 0 {
      FoldKeepsDirs(fs, files[..|files| - 1], step);
    }
  }

  /** A file no step removes is still there after the loop. */
  lemma {:induction false} FoldKeepsPresent(fs: Fs, files: seq<FilePath>, step: Step, g: FilePath)
    requires forall s: Fs, f :: f in files && step(s, f).Ok? && g in s.files ==> g in step(s, f).value.files
    ensures Fold(fs, files, step).Ok? && g in fs.files ==> g in Fold(fs, files, step).value.files
    decreases |files|
  {
    if |files| > 0 {
      FoldKeepsPresent(fs, files[..|files| - 1], step, g);
    }
  }

  /** A loop whose every step keeps the set of open files keeps it. */
  lemma {:induction false} FoldKeepsLocked(fs: Fs, files: seq<FilePath>, step: Step)
    requires forall s: Fs, f :: f in files && step(s, f).Ok? ==> step(s, f).value.locked == s.locked
    ensures Fold(fs, files, step).Ok? ==> Fold(fs, files, step).value.locked == fs.locked
    decreases |files|
  {
    if |files| > 0 {
      FoldKeepsLocked(fs, files[..|files| - 1], step);
    }
  }
}
