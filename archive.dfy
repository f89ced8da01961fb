/** `archive_downloaded_data`: every dated `.csv` file below the download
    folder, outside any `Archive` path and not a `.png`, whose date token lies
    strictly before today is moved to
    `{parent}/{parent} Archive/{parent} Archive {token}/{name}`. The token is
    the leftmost date in the file's full path. The single-file script does
    the same. */
module Archive {
  import opened Common
  import opened Strings
  import opened Dates
  import opened FileSystem
  import opened Matching

  const ArchiveIgnore: seq<string> := ["Archive", ".png"]

  /** `Path(file).parent.name`: the last directory component, empty at the root. */
  function ParentName(f: FilePath): string {
    if |f.dir| == 0 then "" else f.dir[|f.dir| - 1]
  }

  /** The folder a file dated by `tok` is archived into. */
  function ArchiveDir(f: FilePath, tok: string): (d: seq<string>)
    ensures |d| == |f.dir| + 2 && d[..|f.dir|] == f.dir
  {
    f.dir + [ParentName(f) + " Archive", ParentName(f) + " Archive " + tok]
  }

  lemma TokenSlice(t: string, i: nat)
    requires IsTokenAt(t, i)
    ensures |t[i..i + 10]| == 10 && IsTokenAt(t[i..i + 10], 0)
  {
  }

  /** The date token of a file's path, when the date pattern finds one. */
  function Token(f: FilePath): (r: Option<string>)
    ensures r.Some? ==> |r.value| == 10 && IsTokenAt(r.value, 0)
  {
    var t := Text(f);
    match FindToken(t)
    case None => None
    case Some(i) => TokenSlice(t, i); Some(t[i..i + 10])
  }

  /** The date a file is archived by, or the exception reading it raises. */
  function DateOf(f: FilePath): (r: Result<Date>)
    ensures r.Err? <==> Token(f).None? || ParseToken(Token(f).value).Err?
    ensures r.Err? && Token(f).None? ==> r.failure == AlteredFile
    ensures r.Err? && Token(f).Some? ==> r.failure == BadDate
  {
    match Token(f)
    case None => Err(AlteredFile)
    case Some(tok) => ParseToken(tok)
  }

  /** One turn of the loop: read the date; if it is before today, create the
      archive folder, copy the file there and remove the original. */
  function ArchiveFile(fs: Fs, f: FilePath, today: Date): Result<Fs> {
    match DateOf(f)
    case Err(e) => Err(e)
    case Ok(d) =>
      if !Before(d, today) then Ok(fs)
      else
        var dir := ArchiveDir(f, Token(f).value);
        match MakeDirs(fs, dir)
        case Err(e) => Err(e)
        case Ok(made) =>
          match Copy(made, f, dir + [f.name])
          case Err(e) => Err(e)
          case Ok(copied) => Unlink(copied, f)
  }

  function ArchiveStep(today: Date): Step {
    (s: Fs, f: FilePath) => ArchiveFile(s, f, today)
  }

  /** An archived copy keeps the original name and lies in the archive
      folder, or, when a directory already has the file's name there, in
      that directory (`shutil.copy` into a directory). */
  predicate ArchivedCopy(f: FilePath, target: FilePath) {
    Token(f).Some? && target.name == f.name
    && (target.dir == ArchiveDir(f, Token(f).value) || target.dir == ArchiveDir(f, Token(f).value) + [f.name])
  }

  /** Where one turn copies an older file to, from the state `s` it starts in. */
  function ArchiveTarget(s: Fs, f: FilePath): FilePath
    requires Token(f).Some?
  {
    var dir := ArchiveDir(f, Token(f).value);
    CopyTarget(s.(dirs := s.dirs + Prefixes(dir)), f, dir + [f.name])
  }

  /** The first archive folder's name holds `Archive`. */
  lemma ArchiveNameMarked(parent: string)
    ensures Contains(parent + " Archive", "Archive")
  {
    var c := parent + " Archive";
    EndsWithAppend(parent + " ", "Archive");
    assert c == parent + " " + "Archive";
    ContainsIff(c, "Archive");
    assert OccursAt(c, "Archive", |c| - 7);
  }

  /** Every path below an archive folder contains `Archive`. */
  lemma ArchivedCopyMarked(f: FilePath, target: FilePath)
    requires ArchivedCopy(f, target)
    ensures Contains(Text(target), "Archive")
  {
    var k := |f.dir|;
    assert Components(target)[k] == target.dir[k] == ParentName(f) + " Archive";
    ArchiveNameMarked(ParentName(f));
    ComponentInText(target, k, "Archive");
  }

  /** Two different files outside archive paths are never archived onto the
      same path: equal targets would need equal folders, or would put one
      file's ` Archive` folder among the other file's own folders. */
  lemma ArchivedCopiesDistinct(f: FilePath, h: FilePath, t: FilePath, u: FilePath)
    requires f != h && ArchivedCopy(f, t) && ArchivedCopy(h, u)
    requires !Contains(Text(f), "Archive") && !Contains(Text(h), "Archive")
    ensures t != u
  {
    if |f.dir| == |h.dir| {
      assert t.dir[..|f.dir|] == f.dir && u.dir[..|h.dir|] == h.dir;
    } else if |f.dir| < |h.dir| {
      OwnFoldersUnmarked(h, f, u, t);
    } else {
      OwnFoldersUnmarked(f, h, t, u);
    }
  }

  /** When `g`'s folders are deeper than `f`'s, the component of `g` at the
      depth of `f`'s ` Archive` folder is not that folder, so the archived
      copies differ there. */
  lemma OwnFoldersUnmarked(g: FilePath, f: FilePath, v: FilePath, t: FilePath)
    requires |f.dir| < |g.dir| && ArchivedCopy(f, t) && ArchivedCopy(g, v)
    requires !Contains(Text(g), "Archive")
    ensures t != v
  {
    var k := |f.dir|;
    ArchiveNameMarked(ParentName(f));
    if g.dir[k] == ParentName(f) + " Archive" {
      assert Components(g)[k] == g.dir[k];
      ComponentInText(g, k, "Archive");
    }
    assert t.dir[k] == ParentName(f) + " Archive";
    assert v.dir[k] == g.dir[k];
  }

  /** What one turn does. A file dated today or later stays; an older file is
      gone from its place and its bytes sit at its archived copy; no other
      file changes; folders are only added. */
  lemma ArchiveFileEffect(s: Fs, f: FilePath, today: Date, g: FilePath)
    requires ArchiveFile(s, f, today).Ok?
    ensures DateOf(f).Ok?
    ensures var r := ArchiveFile(s, f, today).value;
      && (!Before(DateOf(f).value, today) ==> r == s)
      && (Before(DateOf(f).value, today) ==>
            var target := ArchiveTarget(s, f);
            && f in s.files && f !in r.files
            && ArchivedCopy(f, target) && target in r.files && r.files[target] == s.files[f]
            && (g != f && g != target ==> Same(s, r, g)))
      && (g != f && !Contains(Text(g), "Archive") ==> Same(s, r, g))
      && s.dirs <= r.dirs && r.locked == s.locked
  {
    var d := DateOf(f).value;
    if Before(d, today) {
      var dir := ArchiveDir(f, Token(f).value);
      var made := MakeDirs(s, dir).value;
      var target := CopyTarget(made, f, dir + [f.name]);
      assert target == ArchiveTarget(s, f);
      assert target.dir == dir || target.dir == dir + [f.name];
      assert ArchivedCopy(f, target);
      if g != f && !Contains(Text(g), "Archive") {
        if g == target {
          ArchivedCopyMarked(f, target);
        }
      }
    }
  }

  /** The bytes of an older file sit at an archived copy of it. */
  ghost predicate ArchivedAway(f: FilePath, before: Fs, after: Fs) {
    f in before.files && f !in after.files
    && exists target :: ArchivedCopy(f, target) && target in after.files && after.files[target] == before.files[f]
  }

  /** Over the whole loop, for files none of which lies in an archive path:
      if the loop ends normally, every file's date was read, every file
      older than today is gone from its place and its bytes sit at its
      archived copy, and every other file is where it was with the same
      bytes. */
  lemma ArchiveFilesEffect(fs: Fs, files: seq<FilePath>, today: Date)
    requires forall i, j :: 0 <= i < j < |files| ==> files[i] != files[j]
    requires forall f :: f in files ==> f in fs.files && !Contains(Text(f), "Archive")
    ensures var r := Fold(fs, files, ArchiveStep(today));
      r.Ok? ==> forall f :: f in files ==>
        && DateOf(f).Ok?
        && (Before(DateOf(f).value, today) ==> ArchivedAway(f, fs, r.value))
        && (!Before(DateOf(f).value, today) ==> f in r.value.files && r.value.files[f] == fs.files[f])
  {
    var step := ArchiveStep(today);
    var r := Fold(fs, files, step);
    if r.Ok? {
      forall f | f in files
        ensures DateOf(f).Ok?
        ensures Before(DateOf(f).value, today) ==> ArchivedAway(f, fs, r.value)
        ensures !Before(DateOf(f).value, today) ==> f in r.value.files && r.value.files[f] == fs.files[f]
      {
        var i :| 0 <= i < |files| && files[i] == f;
        ArchiveFileInLoop(fs, files, today, i);
      }
    }
  }

  /** The turn for `files[i]` and its effect on that file, seen after the
      whole loop. */
  lemma ArchiveFileInLoop(fs: Fs, files: seq<FilePath>, today: Date, i: nat)
    requires i < |files|
    requires forall i, j :: 0 <= i < j < |files| ==> files[i] != files[j]
    requires forall f :: f in files ==> f in fs.files && !Contains(Text(f), "Archive")
    requires Fold(fs, files, ArchiveStep(today)).Ok?
    ensures var f, r := files[i], Fold(fs, files, ArchiveStep(today)).value;
      && DateOf(f).Ok?
      && (Before(DateOf(f).value, today) ==> ArchivedAway(f, fs, r))
      && (!Before(DateOf(f).value, today) ==> f in r.files && r.files[f] == fs.files[f])
  {
    var step := ArchiveStep(today);
    var r := Fold(fs, files, step).value;
    var f := files[i];
    FoldOkAt(fs, files, step, i);
    var before, after := files[..i], files[i + 1..];
    var s1 := Fold(fs, before, step).value;
    var s2 := ArchiveFile(s1, f, today).value;
    forall s: Fs, h | h in before && step(s, h).Ok? ensures Same(s, step(s, h).value, f) {
      ArchiveFileEffect(s, h, today, f);
    }
    FoldUntouched(fs, before, step, f);
    forall s: Fs, h | h in after && step(s, h).Ok? ensures Same(s, step(s, h).value, f) {
      ArchiveFileEffect(s, h, today, f);
    }
    FoldUntouched(s2, after, step, f);
    ArchiveFileEffect(s1, f, today, f);
    if Before(DateOf(f).value, today) {
      var target := ArchiveTarget(s1, f);
      assert f !in after by {
        forall j | 0 <= j < |after| ensures after[j] != f {
          assert after[j] == files[i + 1 + j];
        }
      }
      LaterTurnsKeepCopy(s2, after, today, f, target);
      assert ArchivedCopy(f, target) && target in r.files && r.files[target] == fs.files[f];
    }
  }

  /** The turns after the one that archived `f` leave its copy alone: they
      only remove their own files, which lie outside archive paths, and
      write their own copies, which are never `f`'s. */
  lemma LaterTurnsKeepCopy(s: Fs, after: seq<FilePath>, today: Date, f: FilePath, target: FilePath)
    requires f !in after && ArchivedCopy(f, target) && !Contains(Text(f), "Archive")
    requires forall h :: h in after ==> !Contains(Text(h), "Archive")
    ensures Fold(s, after, ArchiveStep(today)).Ok? ==> Same(s, Fold(s, after, ArchiveStep(today)).value, target)
  {
    var step := ArchiveStep(today);
    ArchivedCopyMarked(f, target);
    forall s': Fs, h | h in after && step(s', h).Ok? ensures Same(s', step(s', h).value, target) {
      ArchiveFileEffect(s', h, today, target);
      if Before(DateOf(h).value, today) {
        ArchivedCopiesDistinct(f, h, target, ArchiveTarget(s', h));
      }
    }
    FoldUntouched(s, after, step, target);
  }

  /** When every file is dated today or later the loop changes nothing. */
  lemma {:induction false} AllRecentUnchanged(fs: Fs, files: seq<FilePath>, today: Date)
    requires forall f :: f in files ==> DateOf(f).Ok? && !Before(DateOf(f).value, today)
    ensures Fold(fs, files, ArchiveStep(today)) == Ok(fs)
    decreases |files|
  {
    if |files| > 0 {
      AllRecentUnchanged(fs, files[..|files| - 1], today);
      assert files[|files| - 1] in files;
    }
  }

  /** A date token in a file's name is also in its full path, so a file the
      dated pattern selected never reaches the "possibly altered" error. */
  lemma ListedFileHasToken(f: FilePath)
    requires Matches(DatedCsv, f.name)
    ensures Token(f).Some?
    ensures DateOf(f).Err? ==> DateOf(f).failure == BadDate
  {
    var i :| 0 <= i < |f.name| && IsTokenAt(f.name, i) && CsvFrom(f.name, i + 10);
    TokenShift(DirText(f.dir), f.name, i);
    assert Text(f) == DirText(f.dir) + f.name;
  }

  /** A token keeps its place behind any prefix. */
  lemma TokenShift(a: string, b: string, i: int)
    requires IsTokenAt(b, i)
    ensures IsTokenAt(a + b, |a| + i)
  {
    assert (a + b)[|a| + i..|a| + i + 10] == b[i..i + 10];
  }

  /** The leftmost token decides: a date in a folder name wins over the date
      in the file name, so everything inside a folder named after an old
      date is archived by that date. */
  lemma FolderDateDecides(f: FilePath, i: nat)
    requires FindToken(DirText(f.dir)) == Some(i)
    ensures FindToken(Text(f)) == Some(i)
    ensures Token(f) == Some(DirText(f.dir)[i..i + 10])
  {
    var d := DirText(f.dir);
    assert forall j :: 0 <= j < |d| ==> Text(f)[j] == d[j];
    assert IsTokenAt(Text(f), i);
    forall j | 0 <= j < i ensures !IsTokenAt(Text(f), j) {
      assert !IsTokenAt(d, j);
      assert j + 10 <= |d|;
    }
    assert Text(f)[i..i + 10] == d[i..i + 10];
  }

  /** `archive_downloaded_data`: list the folder, keep the dated `.csv` files
      outside archive paths, then archive them one by one. */
  method ArchivePass(fs: Fs, folder: seq<string>, today: Date) returns (r: Result<Fs>, ghost files: seq<FilePath>)
    ensures ListsCandidates(fs, folder, ArchiveIgnore, DatedCsv, files)
    ensures r == Fold(fs, files, ArchiveStep(today))
  {
    var listing := Rglob(fs, folder);
    var found := MatchingFiles(Some(listing), [], PatternText(DatedCsv), SearchOf(DatedCsv), Some(ArchiveIgnore));
    assert found == Kept(listing, PatternText(DatedCsv), SearchOf(DatedCsv), ArchiveIgnore);
    ListedSelectionAll(fs, folder, listing, DatedCsv, ArchiveIgnore);
    files := found;
    r := RunSteps(fs, found, ArchiveStep(today));
  }

  /** The pass as a whole: when it ends normally every selected file's date
      was read, the old ones are gone from their places with their bytes at
      their archived copies, and the rest are untouched. */
  lemma ArchivePassEffect(fs: Fs, folder: seq<string>, today: Date, files: seq<FilePath>)
    requires ListsCandidates(fs, folder, ArchiveIgnore, DatedCsv, files)
    ensures var r := Fold(fs, files, ArchiveStep(today));
      r.Ok? ==> forall f :: f in files ==>
        && DateOf(f).Ok?
        && (Before(DateOf(f).value, today) ==> ArchivedAway(f, fs, r.value))
        && (!Before(DateOf(f).value, today) ==> f in r.value.files && r.value.files[f] == fs.files[f])
  {
    forall f | f in files ensures !Contains(Text(f), "Archive") {
      assert ArchiveIgnore[0] == "Archive";
    }
    ArchiveFilesEffect(fs, files, today);
  }
}
