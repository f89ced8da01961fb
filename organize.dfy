/** `organize_downloaded_data`: create the category folders, then for each
    category move every `.csv` file whose name holds the category keyword,
    found anywhere below the download folder outside `Archive` paths and
    outside that category's own folder, into the category folder; finally,
    when asked, delete the empty `.csv` files. The single-file script creates
    all its four folders unconditionally, has no iOS category and never
    deletes empty files. */
module Organize {
  import opened Common
  import opened Strings
  import opened Dates
  import opened Enums
  import opened Registry
  import opened FileSystem
  import opened Matching

  datatype Category = RawFiles | SurveyFiles | IosFiles | PreprocessedFiles | DiaryFiles

  /** The category a downloaded kind of data is filed under. */
  function CategoryOf(t: DataType): Category {
    match t
    case Raw => RawFiles
    case Survey => SurveyFiles
    case IosSensor => IosFiles
    case Preprocessed => PreprocessedFiles
    case DayTime => DiaryFiles
    case NightTime => DiaryFiles
    case Summarized => DiaryFiles
  }

  /** The categories in the order the passes run. */
  function Categories(v: Variant): (r: seq<Category>)
    ensures forall i, j :: 0 <= i < j < |r| ==> r[i] != r[j]
  {
    match v
    case Refactored => [RawFiles, SurveyFiles, IosFiles, PreprocessedFiles, DiaryFiles]
    case Legacy => [RawFiles, SurveyFiles, PreprocessedFiles, DiaryFiles]
  }

  /** Every category has its pass, except the iOS one in the script. */
  lemma CategoriesComplete(v: Variant, c: Category)
    ensures c in Categories(v) <==> v.Refactored? || c != IosFiles
  {
    match c
    case RawFiles =>
    case SurveyFiles =>
    case IosFiles =>
    case PreprocessedFiles =>
    case DiaryFiles =>
  }

  function FolderName(v: Variant, c: Category): (r: string)
    ensures |r| > 0
  {
    match c
    case RawFiles => "Chronicle Android Raw Data Downloads"
    case SurveyFiles => "Chronicle Android Survey Data Downloads"
    case IosFiles => "Chronicle iOS Sensor Data Downloads"
    case PreprocessedFiles => "Chronicle Android Preprocessed Data Downloads"
    case DiaryFiles =>
      if v.Refactored? then "Chronicle Time Use Diary Data Downloads"
      else "Chronicle Android Time Use Diary Data Downloads"
  }

  /** The text the category's pattern looks for in a file name. */
  function Keyword(c: Category): string {
    match c
    case RawFiles => "Raw"
    case SurveyFiles => "Survey"
    case IosFiles => "IOSSensor"
    case PreprocessedFiles => "Downloaded Preprocessed"
    case DiaryFiles => "Time Use Diary"
  }

  function CategoryIgnore(v: Variant, c: Category): seq<string> {
    ["Archive", FolderName(v, c)]
  }

  function Dest(v: Variant, folder: seq<string>, c: Category): (d: seq<string>)
    ensures |d| == |folder| + 1 && d[|folder|] == FolderName(v, c)
  {
    folder + [FolderName(v, c)]
  }

  /** The refactored program creates a category's folder when one of the
      category's kinds is checked; the script creates all of them. */
  predicate FolderWanted(v: Variant, c: Category, checked: set<DataType>) {
    v.Legacy? || exists t :: t in checked && CategoryOf(t) == c
  }

  /** `shutil.copy(src=file, dst=folder)`, then `file.unlink()`. */
  function MoveFile(fs: Fs, f: FilePath, dest: seq<string>): Result<Fs> {
    match Copy(fs, f, dest)
    case Err(e) => Err(e)
    case Ok(copied) => Unlink(copied, f)
  }

  function MoveStep(dest: seq<string>): Step {
    (s: Fs, f: FilePath) => MoveFile(s, f, dest)
  }

  /** One move: the file is gone from its place and its bytes are at the
      copy target; nothing else changes. */
  lemma MoveFileEffect(s: Fs, f: FilePath, dest: seq<string>, g: FilePath)
    requires MoveFile(s, f, dest).Ok?
    ensures var r := MoveFile(s, f, dest).value; var target := CopyTarget(s, f, dest);
      && f in s.files && f !in r.files
      && target in r.files && r.files[target] == s.files[f]
      && (g != f && g != target ==> Same(s, r, g))
      && r.dirs == s.dirs && r.locked == s.locked
  {
  }

  /** The folder name is part of the text of every path inside it. */
  lemma InsideMarked(dest: seq<string>, x: FilePath)
    requires |dest| >= 1 && |x.dir| >= |dest| && x.dir[..|dest|] == dest
    ensures Contains(Text(x), dest[|dest| - 1])
  {
    var k := |dest| - 1;
    assert Components(x)[k] == dest[k];
    var t := dest[k];
    ContainsIff(t, t);
    assert OccursAt(t, t, 0);
    ComponentInText(x, k, t);
  }

  /** A move leaves alone every other file whose path lacks the folder name. */
  lemma MoveKeepsUnmarked(s: Fs, h: FilePath, dest: seq<string>, g: FilePath)
    requires |dest| >= 1 && MoveFile(s, h, dest).Ok? && g != h && !Contains(Text(g), dest[|dest| - 1])
    ensures Same(s, MoveFile(s, h, dest).value, g)
  {
    MoveFileEffect(s, h, dest, g);
    if g == CopyTarget(s, h, dest) {
      TargetMarked(s, h, dest);
    }
  }

  lemma MovesKeepUnmarked(fs: Fs, files: seq<FilePath>, dest: seq<string>, g: FilePath)
    requires |dest| >= 1 && g !in files && !Contains(Text(g), dest[|dest| - 1])
    ensures Fold(fs, files, MoveStep(dest)).Ok? ==> Same(fs, Fold(fs, files, MoveStep(dest)).value, g)
  {
    var step := MoveStep(dest);
    forall s: Fs, h | h in files && step(s, h).Ok? ensures Same(s, step(s, h).value, g) {
      MoveKeepsUnmarked(s, h, dest, g);
    }
    FoldUntouched(fs, files, step, g);
  }

  /** Moves never remove a file other than the one moved. */
  lemma MovesKeepPresent(fs: Fs, files: seq<FilePath>, dest: seq<string>, g: FilePath)
    requires g !in files
    ensures Fold(fs, files, MoveStep(dest)).Ok? && g in fs.files ==> g in Fold(fs, files, MoveStep(dest)).value.files
  {
    var step := MoveStep(dest);
    forall s: Fs, h | h in files && step(s, h).Ok? && g in s.files ensures g in step(s, h).value.files {
      MoveFileEffect(s, h, dest, g);
    }
    FoldKeepsPresent(fs, files, step, g);
  }

  /** Moves never create or remove folders. */
  lemma MovesKeepDirs(fs: Fs, files: seq<FilePath>, dest: seq<string>)
    ensures Fold(fs, files, MoveStep(dest)).Ok? ==> Fold(fs, files, MoveStep(dest)).value.dirs == fs.dirs
  {
    var step := MoveStep(dest);
    forall s: Fs, h | h in files && step(s, h).Ok? ensures step(s, h).value.dirs == s.dirs {
      MoveFileEffect(s, h, dest, h);
    }
    FoldKeepsDirs(fs, files, step);
  }

  /** The `i`-th file of a pass: the state its move starts from, and its target. */
  lemma MoveAt(fs: Fs, files: seq<FilePath>, dest: seq<string>, i: nat)
    requires |dest| >= 1 && i < |files| && Fold(fs, files, MoveStep(dest)).Ok?
    requires forall a, b :: 0 <= a < b < |files| ==> files[a] != files[b]
    requires forall f :: f in files ==> !Contains(Text(f), dest[|dest| - 1])
    ensures var s1 := Fold(fs, files[..i], MoveStep(dest));
      var r := Fold(fs, files, MoveStep(dest)).value;
      && s1.Ok? && s1.value.dirs == fs.dirs && MoveFile(s1.value, files[i], dest).Ok?
      && files[i] !in r.files && CopyTarget(s1.value, files[i], dest) in r.files
  {
    var step := MoveStep(dest);
    var f := files[i];
    FoldOkAt(fs, files, step, i);
    var s1 := Fold(fs, files[..i], step).value;
    MovesKeepDirs(fs, files[..i], dest);
    var s2 := MoveFile(s1, f, dest).value;
    MoveFileEffect(s1, f, dest, f);
    var after := files[i + 1..];
    assert f !in after;
    MovesKeepUnmarked(s2, after, dest, f);
    var target := CopyTarget(s1, f, dest);
    TargetMarked(s1, f, dest);
    assert target !in after;
    MovesKeepPresent(s2, after, dest, target);
  }

  /** A category pass into an existing folder, over files none of which
      has the folder's name in its path: when it ends normally each file is
      gone from its place and a file of its name is in the folder. */
  lemma MovesIntoFolder(fs: Fs, files: seq<FilePath>, dest: seq<string>)
    requires |dest| >= 1 && dest in fs.dirs
    requires forall i, j :: 0 <= i < j < |files| ==> files[i] != files[j]
    requires forall f :: f in files ==> !Contains(Text(f), dest[|dest| - 1])
    ensures var r := Fold(fs, files, MoveStep(dest));
      r.Ok? ==> (r.value.dirs == fs.dirs
        && forall f :: f in files ==> f !in r.value.files && FilePath(dest, f.name) in r.value.files)
  {
    MovesKeepDirs(fs, files, dest);
    var r := Fold(fs, files, MoveStep(dest));
    if r.Ok? {
      forall f | f in files ensures f !in r.value.files && FilePath(dest, f.name) in r.value.files {
        var i :| 0 <= i < |files| && files[i] == f;
        MoveAt(fs, files, dest, i);
      }
    }
  }

  /** A category pass whose folder was never created (a category none of
      whose kinds is checked) copies every file onto one plain file named
      like the folder: each file is gone from its place, and only the last
      one's bytes remain. */
  lemma MovesOntoOneFile(fs: Fs, files: seq<FilePath>, dest: seq<string>)
    requires |dest| >= 1 && dest !in fs.dirs && |files| >= 1
    requires forall i, j :: 0 <= i < j < |files| ==> files[i] != files[j]
    requires forall f :: f in files ==> f in fs.files && !Contains(Text(f), dest[|dest| - 1])
    ensures var r := Fold(fs, files, MoveStep(dest));
      r.Ok? ==> (PathOf(dest) in r.value.files && r.value.files[PathOf(dest)] == fs.files[files[|files| - 1]]
        && forall f :: f in files ==> f !in r.value.files)
  {
    var step := MoveStep(dest);
    var r := Fold(fs, files, step);
    if r.Ok? {
      var n := |files| - 1;
      var last := files[n];
      var init := files[..n];
      assert files == init + [last];
      var s := Fold(fs, init, step).value;
      MovesKeepDirs(fs, init, dest);
      assert CopyTarget(s, last, dest) == PathOf(dest);
      MoveFileEffect(s, last, dest, last);
      assert last !in init;
      MovesKeepUnmarked(fs, init, dest, last);
      forall f | f in files ensures f !in r.value.files {
        var i :| 0 <= i < |files| && files[i] == f;
        MoveAt(fs, files, dest, i);
      }
    }
  }

  /** A copy target inside `dest`, or `dest` itself, carries `dest`'s last
      component in its text. */
  lemma TargetMarked(s: Fs, h: FilePath, dest: seq<string>)
    requires |dest| >= 1
    ensures Contains(Text(CopyTarget(s, h, dest)), dest[|dest| - 1])
  {
    var x := CopyTarget(s, h, dest);
    var k := |dest| - 1;
    var t := dest[k];
    assert Components(x)[k] == t;
    ContainsIff(t, t);
    assert OccursAt(t, t, 0);
    ComponentInText(x, k, t);
  }

  /** `delete_zero_byte_file`: `stat()` raises for a missing file; an empty
      file is removed unless another program holds it open, in which case
      the `PermissionError` is logged and swallowed. */
  function DeleteZeroByte(fs: Fs, f: FilePath): (r: Result<Fs>)
    ensures r.Ok? <==> f in fs.files
    ensures r.Err? ==> r.failure == NotFound
    ensures r.Ok? ==> r.value.dirs == fs.dirs && r.value.locked == fs.locked
    ensures r.Ok? ==> (f in r.value.files <==> fs.files[f] != 0 || f in fs.locked)
    ensures r.Ok? ==> forall g :: g != f ==> Same(fs, r.value, g)
    ensures r.Ok? && f in r.value.files ==> r.value.files[f] == fs.files[f]
  {
    if f !in fs.files then Err(NotFound)
    else if fs.files[f] != 0 then Ok(fs)
    else
      match Unlink(fs, f)
      case Ok(removed) => Ok(removed)
      case Err(e) => if e == PermissionDenied then Ok(fs) else Err(e)
  }

  function ZeroStep(): Step {
    (s: Fs, f: FilePath) => DeleteZeroByte(s, f)
  }

  /** The file is listed, empty and not held open: the pass removes it. */
  predicate Emptied(fs: Fs, files: seq<FilePath>, g: FilePath) {
    g in files && g in fs.files && fs.files[g] == 0 && g !in fs.locked
  }

  /** The zero-byte pass over files that exist never raises; it removes
      exactly the listed empty files nobody holds open and leaves every
      other file and every folder as it was. */
  lemma {:induction false} ZeroFilesEffect(fs: Fs, files: seq<FilePath>)
    requires forall i, j :: 0 <= i < j < |files| ==> files[i] != files[j]
    requires forall f :: f in files ==> f in fs.files
    ensures Fold(fs, files, ZeroStep()).Ok?
    ensures var r := Fold(fs, files, ZeroStep()).value;
      && r.dirs == fs.dirs && r.locked == fs.locked
      && (forall g :: g in r.files <==> g in fs.files && !Emptied(fs, files, g))
      && (forall g :: g in r.files ==> r.files[g] == fs.files[g])
    decreases |files|
  {
    if |files| > 0 {
      var n := |files| - 1;
      var init, last := files[..n], files[n];
      assert files == init + [last];
      ZeroFilesEffect(fs, init);
      var s := Fold(fs, init, ZeroStep()).value;
      assert last !in init;
      assert !Emptied(fs, init, last);
      var r := DeleteZeroByte(s, last).value;
      forall g ensures (g in r.files <==> g in fs.files && !Emptied(fs, files, g))
        && (g in r.files ==> r.files[g] == fs.files[g])
      {
        if g != last {
          assert Emptied(fs, files, g) <==> Emptied(fs, init, g);
        }
      }
    }
  }

  /** One category pass: list the download folder, keep the files the
      category pattern matches outside `Archive` and outside the category
      folder, and move them one by one. */
  method MovePass(fs: Fs, v: Variant, folder: seq<string>, c: Category) returns (r: Result<Fs>, ghost files: seq<FilePath>)
    ensures ListsCandidates(fs, folder, CategoryIgnore(v, c), KeywordCsv(Keyword(c)), files)
    ensures r == Fold(fs, files, MoveStep(Dest(v, folder, c)))
  {
    var p := KeywordCsv(Keyword(c));
    var listing := Rglob(fs, folder);
    var found := MatchingFiles(Some(listing), [], PatternText(p), SearchOf(p), Some(CategoryIgnore(v, c)));
    ListedSelectionAll(fs, folder, listing, p, CategoryIgnore(v, c));
    files := found;
    r := RunSteps(fs, found, MoveStep(Dest(v, folder, c)));
  }

  /** The zero-byte pass: list the download folder, keep the `.csv` files
      outside `Archive`, and delete the empty ones. */
  method ZeroPass(fs: Fs, folder: seq<string>) returns (r: Result<Fs>, ghost files: seq<FilePath>)
    ensures ListsCandidates(fs, folder, ["Archive"], CsvEnd, files)
    ensures r == Fold(fs, files, ZeroStep())
  {
    var listing := Rglob(fs, folder);
    var found := MatchingFiles(Some(listing), [], PatternText(CsvEnd), SearchOf(CsvEnd), Some(["Archive"]));
    ListedSelectionAll(fs, folder, listing, CsvEnd, ["Archive"]);
    files := found;
    r := RunSteps(fs, found, ZeroStep());
  }

  /** A category pass after its folder was created: every selected file
      ends up in the folder under its own name. */
  lemma MovePassEffect(fs: Fs, v: Variant, folder: seq<string>, c: Category, files: seq<FilePath>)
    requires ListsCandidates(fs, folder, CategoryIgnore(v, c), KeywordCsv(Keyword(c)), files)
    requires Dest(v, folder, c) in fs.dirs
    ensures var r := Fold(fs, files, MoveStep(Dest(v, folder, c)));
      r.Ok? ==> (r.value.dirs == fs.dirs
        && forall f :: f in files ==> f !in r.value.files && FilePath(Dest(v, folder, c), f.name) in r.value.files)
  {
    var dest := Dest(v, folder, c);
    forall f | f in files ensures !Contains(Text(f), dest[|dest| - 1]) {
      assert CategoryIgnore(v, c)[1] == FolderName(v, c);
    }
    MovesIntoFolder(fs, files, dest);
  }

  /** A category pass whose folder does not exist: the selected files are
      all removed and only the last one's bytes survive, in a plain file
      named like the folder. */
  lemma MovePassWithoutFolder(fs: Fs, v: Variant, folder: seq<string>, c: Category, files: seq<FilePath>)
    requires ListsCandidates(fs, folder, CategoryIgnore(v, c), KeywordCsv(Keyword(c)), files)
    requires Dest(v, folder, c) !in fs.dirs && |files| >= 1
    ensures var r := Fold(fs, files, MoveStep(Dest(v, folder, c)));
      r.Ok? ==> (FilePath(folder, FolderName(v, c)) in r.value.files && files[|files| - 1] in fs.files
        && r.value.files[FilePath(folder, FolderName(v, c))] == fs.files[files[|files| - 1]]
        && forall f :: f in files ==> f !in r.value.files)
  {
    var dest := Dest(v, folder, c);
    forall f | f in files ensures f in fs.files && !Contains(Text(f), dest[|dest| - 1]) {
      assert CategoryIgnore(v, c)[1] == FolderName(v, c);
    }
    assert PathOf(dest) == FilePath(folder, FolderName(v, c));
    MovesOntoOneFile(fs, files, dest);
  }

  /** The zero-byte pass removes exactly the empty `.csv` files outside
      `Archive` that nobody holds open. */
  lemma ZeroPassEffect(fs: Fs, folder: seq<string>, files: seq<FilePath>)
    requires ListsCandidates(fs, folder, ["Archive"], CsvEnd, files)
    ensures Fold(fs, files, ZeroStep()).Ok?
    ensures var r := Fold(fs, files, ZeroStep()).value;
      && r.dirs == fs.dirs && r.locked == fs.locked
      && (forall g :: g in r.files <==> g in fs.files && !(Candidate(fs, folder, ["Archive"], CsvEnd, g) && fs.files[g] == 0 && g !in fs.locked))
      && (forall g :: g in r.files ==> r.files[g] == fs.files[g])
  {
    ZeroFilesEffect(fs, files);
  }

  /** Different categories have different folders. */
  lemma FolderNamesDistinct(v: Variant, c: Category, d: Category)
    requires c != d
    ensures FolderName(v, c) != FolderName(v, d)
  {
  }

  /** Creating one category folder creates no other category folder. */
  lemma DestPrefixes(v: Variant, folder: seq<string>, c: Category, d: Category)
    requires Dest(v, folder, c) in Prefixes(Dest(v, folder, d))
    ensures c == d
  {
    if c != d {
      FolderNamesDistinct(v, c, d);
    }
  }

  /** The first part of `organize_downloaded_data`: `mkdir` of each wanted
      category folder, in order. When it ends normally exactly the wanted
      folders have been added among the category folders. */
  method MakeCategoryFolders(v: Variant, fs: Fs, folder: seq<string>, checked: set<DataType>) returns (r: Result<Fs>)
    ensures r == FoldersFrom(v, fs, folder, checked, Categories(v))
    ensures r.Ok? ==> forall c :: c in Categories(v) ==>
      (Dest(v, folder, c) in r.value.dirs <==> FolderWanted(v, c, checked) || Dest(v, folder, c) in fs.dirs)
    ensures r.Ok? ==> fs.dirs <= r.value.dirs && r.value.locked == fs.locked && r.value.files == fs.files
  {
    var cats := Categories(v);
    var cur := fs;
    var k := 0;
    while k < |cats|
      invariant 0 <= k <= |cats|
      invariant FoldersFrom(v, cur, folder, checked, cats[k..]) == FoldersFrom(v, fs, folder, checked, cats)
    {
      var c := cats[k];
      FoldersFromNext(v, cur, folder, checked, cats, k);
      if FolderWanted(v, c, checked) {
        var made := MakeDirs(cur, Dest(v, folder, c));
        if made.Err? {
          return made;
        }
        cur := made.value;
      }
      k := k + 1;
    }
    assert cats[k..] == [];
    r := Ok(cur);
    FoldersFromEffect(v, fs, folder, checked, cats);
  }

  /** After the `mkdir` calls of `cats` end normally, a category folder
      exists exactly when it existed before or its category is among `cats`
      and wanted; files are untouched. */
  lemma {:induction false} FoldersFromEffect(v: Variant, fs: Fs, folder: seq<string>, checked: set<DataType>, cats: seq<Category>)
    requires FoldersFrom(v, fs, folder, checked, cats).Ok?
    ensures var r := FoldersFrom(v, fs, folder, checked, cats).value;
      && fs.dirs <= r.dirs && r.locked == fs.locked && r.files == fs.files
      && forall c :: c in Categories(v) ==>
           (Dest(v, folder, c) in r.dirs <==> (c in cats && FolderWanted(v, c, checked)) || Dest(v, folder, c) in fs.dirs)
    decreases |cats|
  {
    if cats != [] {
      var c := cats[0];
      assert forall d :: d in cats <==> d == c || d in cats[1..];
      if !FolderWanted(v, c, checked) {
        FoldersFromEffect(v, fs, folder, checked, cats[1..]);
      } else {
        var made := MakeDirs(fs, Dest(v, folder, c)).value;
        FoldersStep(v, folder, checked, fs, fs, [], c);
        assert [] + [c] == [c];
        FoldersFromEffect(v, made, folder, checked, cats[1..]);
      }
    }
  }

  /** The `mkdir` calls of the categories `cats` in order, the wanted ones
      only; the first failure ends them. */
  function FoldersFrom(v: Variant, fs: Fs, folder: seq<string>, checked: set<DataType>, cats: seq<Category>): Result<Fs>
    decreases |cats|
  {
    if cats == [] then Ok(fs)
    else if !FolderWanted(v, cats[0], checked) then FoldersFrom(v, fs, folder, checked, cats[1..])
    else
      var made := MakeDirs(fs, Dest(v, folder, cats[0]));
      if made.Err? then made else FoldersFrom(v, made.value, folder, checked, cats[1..])
  }

  /** `FoldersFrom` from the `k`-th category on, one category at a time. */
  lemma FoldersFromNext(v: Variant, cur: Fs, folder: seq<string>, checked: set<DataType>, cats: seq<Category>, k: nat)
    requires k < |cats|
    ensures var rest := FoldersFrom(v, cur, folder, checked, cats[k..]);
      && (!FolderWanted(v, cats[k], checked) ==> rest == FoldersFrom(v, cur, folder, checked, cats[k + 1..]))
      && (FolderWanted(v, cats[k], checked) ==>
            var made := MakeDirs(cur, Dest(v, folder, cats[k]));
            && (made.Err? ==> rest == made)
            && (made.Ok? ==> rest == FoldersFrom(v, made.value, folder, checked, cats[k + 1..])))
  {
    var rest := cats[k..];
    assert rest[0] == cats[k] && rest[1..] == cats[k + 1..];
  }

  /** After the `mkdir` calls of the categories in `done`, a category folder
      exists exactly when it existed before or its category is done and wanted. */
  ghost predicate FoldersSoFar(v: Variant, folder: seq<string>, checked: set<DataType>, fs: Fs, cur: Fs, done: seq<Category>) {
    forall c :: c in Categories(v) ==>
      (Dest(v, folder, c) in cur.dirs <==> (c in done && FolderWanted(v, c, checked)) || Dest(v, folder, c) in fs.dirs)
  }

  lemma FoldersStep(v: Variant, folder: seq<string>, checked: set<DataType>, fs: Fs, cur: Fs, done: seq<Category>, c: Category)
    requires FoldersSoFar(v, folder, checked, fs, cur, done)
    ensures !FolderWanted(v, c, checked) ==> FoldersSoFar(v, folder, checked, fs, cur, done + [c])
    ensures FolderWanted(v, c, checked) && MakeDirs(cur, Dest(v, folder, c)).Ok? ==>
      FoldersSoFar(v, folder, checked, fs, MakeDirs(cur, Dest(v, folder, c)).value, done + [c])
  {
    var next := done + [c];
    var m := MakeDirs(cur, Dest(v, folder, c));
    forall d | d in Categories(v)
      ensures FolderWanted(v, c, checked) && m.Ok? ==>
        (Dest(v, folder, d) in m.value.dirs <==> (d in next && FolderWanted(v, d, checked)) || Dest(v, folder, d) in fs.dirs)
      ensures !FolderWanted(v, c, checked) ==>
        (Dest(v, folder, d) in cur.dirs <==> (d in next && FolderWanted(v, d, checked)) || Dest(v, folder, d) in fs.dirs)
    {
      assert d in next <==> d in done || d == c;
      if d != c && Dest(v, folder, d) in Prefixes(Dest(v, folder, c)) {
        DestPrefixes(v, folder, d, c);
      }
      if d == c {
        var dc := Dest(v, folder, c);
        assert dc == dc[..|dc|];
      }
    }
  }

  /** What the category passes `cats`, run in order from `fs`, can leave:
      each moves its candidates, each once in some listing order, into its
      folder, and the first exception ends them. */
  ghost predicate MovesOutcome(v: Variant, fs: Fs, folder: seq<string>, cats: seq<Category>, r: Result<Fs>)
    decreases |cats|
  {
    if cats == [] then r == Ok(fs)
    else exists files ::
      && ListsCandidates(fs, folder, CategoryIgnore(v, cats[0]), KeywordCsv(Keyword(cats[0])), files)
      && var moved := Fold(fs, files, MoveStep(Dest(v, folder, cats[0])));
         (moved.Err? ==> r == moved) && (moved.Ok? ==> MovesOutcome(v, moved.value, folder, cats[1..], r))
  }

  /** One category pass, from `cur`, joined to what the later passes leave. */
  lemma MovesOutcomeStep(v: Variant, cur: Fs, folder: seq<string>, cats: seq<Category>, k: nat, files: seq<FilePath>, moved: Result<Fs>)
    requires k < |cats|
    requires ListsCandidates(cur, folder, CategoryIgnore(v, cats[k]), KeywordCsv(Keyword(cats[k])), files)
    requires moved == Fold(cur, files, MoveStep(Dest(v, folder, cats[k])))
    ensures moved.Err? ==> MovesOutcome(v, cur, folder, cats[k..], moved)
    ensures moved.Ok? ==> forall r :: MovesOutcome(v, moved.value, folder, cats[k + 1..], r) ==> MovesOutcome(v, cur, folder, cats[k..], r)
  {
    var rest := cats[k..];
    assert rest[0] == cats[k] && rest[1..] == cats[k + 1..];
  }

  /** The category passes in order. They move files only: the folders and
      the files held open stay as they were. */
  method MoveCategories(v: Variant, fs: Fs, folder: seq<string>) returns (r: Result<Fs>)
    ensures MovesOutcome(v, fs, folder, Categories(v), r)
    ensures r.Ok? ==> r.value.dirs == fs.dirs && r.value.locked == fs.locked
  {
    var cats := Categories(v);
    var cur := fs;
    var k := 0;
    while k < |cats|
      invariant 0 <= k <= |cats|
      invariant cur.dirs == fs.dirs && cur.locked == fs.locked
      invariant forall r :: MovesOutcome(v, cur, folder, cats[k..], r) ==> MovesOutcome(v, fs, folder, cats, r)
    {
      var moved, files := MovePass(cur, v, folder, cats[k]);
      MovesOutcomeStep(v, cur, folder, cats, k, files, moved);
      if moved.Err? {
        return moved;
      }
      MovesKeepDirs(cur, files, Dest(v, folder, cats[k]));
      MovesKeepLocked(cur, files, Dest(v, folder, cats[k]));
      cur := moved.value;
      k := k + 1;
    }
    assert cats[k..] == [];
    r := Ok(cur);
  }

  /** What the zero-byte pass can leave: the folder after checking every
      `.csv` file outside `Archive` paths, each once in some listing order. */
  ghost predicate ZeroOutcome(fs: Fs, folder: seq<string>, r: Result<Fs>) {
    exists files :: ListsCandidates(fs, folder, ["Archive"], CsvEnd, files) && r == Fold(fs, files, ZeroStep())
  }

  /** What `organize_downloaded_data` can leave: the `mkdir` calls, then the
      category passes, then the zero-byte pass when the refactored program
      is asked for it; the first exception ends the pass. */
  ghost predicate OrganizeOutcome(v: Variant, fs: Fs, folder: seq<string>, checked: set<DataType>, deleteEmpty: bool, r: Result<Fs>) {
    var made := FoldersFrom(v, fs, folder, checked, Categories(v));
    && (made.Err? ==> r == made)
    && (made.Ok? ==> exists moved ::
          && MovesOutcome(v, made.value, folder, Categories(v), moved)
          && (moved.Ok? && v.Refactored? && deleteEmpty ==> ZeroOutcome(moved.value, folder, r))
          && (!(moved.Ok? && v.Refactored? && deleteEmpty) ==> r == moved))
  }

  /** `organize_downloaded_data`: create the wanted category folders, run
      the category passes in order, then the zero-byte pass when the
      refactored program is asked for it (the script has none). When it
      ends normally the wanted folders exist and no other category folder
      was created. */
  method OrganizePass(v: Variant, fs: Fs, folder: seq<string>, checked: set<DataType>, deleteEmpty: bool)
    returns (r: Result<Fs>)
    ensures r.Ok? ==> forall c :: c in Categories(v) ==>
      (Dest(v, folder, c) in r.value.dirs <==> FolderWanted(v, c, checked) || Dest(v, folder, c) in fs.dirs)
    ensures r.Ok? ==> fs.dirs <= r.value.dirs && r.value.locked == fs.locked
    ensures OrganizeOutcome(v, fs, folder, checked, deleteEmpty, r)
  {
    r := MakeCategoryFolders(v, fs, folder, checked);
    if r.Err? {
      return;
    }
    var made := r.value;
    r := MoveCategories(v, made, folder);
    ghost var moved := r;
    if r.Err? || !(v.Refactored? && deleteEmpty) {
      return;
    }
    var cleaned, files := ZeroPass(r.value, folder);
    ZeroPassEffect(r.value, folder, files);
    r := cleaned;
  }

  /** Moves never change which files are held open. */
  lemma MovesKeepLocked(fs: Fs, files: seq<FilePath>, dest: seq<string>)
    ensures Fold(fs, files, MoveStep(dest)).Ok? ==> Fold(fs, files, MoveStep(dest)).value.locked == fs.locked
  {
    var step := MoveStep(dest);
    forall s: Fs, h | h in files && step(s, h).Ok? ensures step(s, h).value.locked == s.locked {
      MoveFileEffect(s, h, dest, h);
    }
    FoldKeepsLocked(fs, files, step);
  }

  /** A name holding the keyword and, after it, `.csv` matches the keyword pattern. */
  lemma KeywordThenCsv(a: string, kw: string, b: string)
    ensures Matches(KeywordCsv(kw), a + kw + b + ".csv")
  {
    var name := a + kw + b + ".csv";
    assert name[|a|..|a| + |kw|] == kw;
    assert OccursAt(name, kw, |a|);
    var j := |name| - 4;
    assert name[j..] == ".csv";
    assert CsvAt(name, j);
  }

  /** The label of every kind but the refactored preprocessed one starts
      with its category's keyword. */
  lemma LabelHoldsKeyword(v: Variant, t: DataType)
    requires Lookup(v, t).Ok? && !(v.Refactored? && t == Preprocessed)
    ensures StartsWith(Lookup(v, t).value.labelText, Keyword(CategoryOf(t)))
  {
    if IsDiary(t) {
      DiaryLabels(v, t);
    }
  }

  /** The diary labels all start with `Time Use Diary`. */
  lemma DiaryLabels(v: Variant, t: DataType)
    requires IsDiary(t)
    ensures StartsWith(Lookup(v, t).value.labelText, Keyword(CategoryOf(t)))
  {
  }

  lemma Regroup(p: string, pre: string, kw: string, rest: string, date: string)
    ensures p + (pre + (kw + rest)) + (" " + date + ".csv") == (p + pre) + kw + (rest + " " + date) + ".csv"
  {
  }

  /** Every file the program downloads is picked up by its category's pass,
      except the preprocessed file of the refactored program. */
  lemma DownloadedNameOrganized(v: Variant, pid: string, t: DataType, today: Date)
    requires IsValid(today) && Lookup(v, t).Ok? && !(v.Refactored? && t == Preprocessed)
    ensures Matches(KeywordCsv(Keyword(CategoryOf(t))), FileName(v, pid, Lookup(v, t).value, today))
  {
    var e := Lookup(v, t).value;
    var kw := Keyword(CategoryOf(t));
    LabelHoldsKeyword(v, t);
    var rest := e.labelText[|kw|..];
    assert e.labelText == kw + rest;
    var pre := if v.Refactored? then (if e.device.Some? then " " + DeviceValue(e.device.value) else "") + " " else " Android ";
    assert NameMiddle(v, e) == pre + (kw + rest);
    var date := FormatDate(today);
    Regroup(pid + " Chronicle", pre, kw, rest, date);
    KeywordThenCsv(pid + " Chronicle" + pre, kw, rest + " " + date);
  }

  /** The middle of the refactored preprocessed file name. */
  lemma PreprocessedMiddle(v: Variant, t: DataType)
    requires v.Refactored? && t == Preprocessed
    ensures NameMiddle(v, Lookup(v, t).value) == " Android Preprocessed Data"
  {
  }

  /** The text after the participant id in the refactored preprocessed file
      name holds no `w` and starts with ` C`. */
  lemma PreprocessedSuffix(v: Variant, t: DataType, today: Date)
    requires v.Refactored? && t == Preprocessed && IsValid(today)
    ensures var s := " Chronicle" + NameMiddle(v, Lookup(v, t).value) + DateSuffix(today);
      && |s| >= 2 && s[0] == ' ' && s[1] == 'C' && 'w' !in s
  {
    PreprocessedMiddle(v, t);
    MiddleLacksW(" Chronicle", NameMiddle(v, Lookup(v, t).value));
    DateSuffixLacksW(today);
    JoinLacksW(" Chronicle", NameMiddle(v, Lookup(v, t).value), DateSuffix(today));
  }

  lemma MiddleLacksW(a: string, m: string)
    requires a == " Chronicle" && m == " Android Preprocessed Data"
    ensures 'w' !in a && 'w' !in m && |a| >= 2 && a[0] == ' ' && a[1] == 'C'
  {
  }

  lemma DateSuffixLacksW(today: Date)
    requires IsValid(today)
    ensures 'w' !in DateSuffix(today)
  {
    var date := FormatDate(today);
    assert 'w' !in date;
    assert DateSuffix(today) == " " + date + ".csv";
  }

  lemma JoinLacksW(a: string, m: string, d: string)
    requires 'w' !in a && 'w' !in m && 'w' !in d && |a| >= 2
    ensures var s := a + m + d; |s| >= 2 && s[0] == a[0] && s[1] == a[1] && 'w' !in s
  {
  }

  /** `Downloaded Preprocessed` cannot occur in `pid + s` when it does not
      occur in `pid` and `s` holds no `w` and starts with ` C`. */
  lemma NotAcross(pid: string, s: string)
    requires !Contains(pid, "Downloaded Preprocessed")
    requires |s| >= 2 && s[0] == ' ' && s[1] == 'C' && 'w' !in s
    ensures forall i :: !OccursAt(pid + s, "Downloaded Preprocessed", i)
  {
    var t := "Downloaded Preprocessed";
    var name := pid + s;
    assert |t| == 23 && t[2] == 'w' && t[11] == 'P';
    assert forall k :: 0 <= k < |t| && k != 10 ==> t[k] != ' ';
    ContainsIff(pid, t);
    forall i | 0 <= i && i + |t| <= |name| ensures !OccursAt(name, t, i) {
      if i + |t| <= |pid| {
        assert name[i..i + |t|] == pid[i..i + |t|];
        assert !OccursAt(pid, t, i);
      } else if i + 2 >= |pid| {
        var w := name[i..i + |t|];
        assert w[2] == name[i + 2];
        assert name[i + 2] == s[i + 2 - |pid|];
        assert s[i + 2 - |pid|] in s;
        assert w[2] != t[2];
      } else {
        var m := |pid| - i;
        var w := name[i..i + |t|];
        assert w[m] == name[|pid|] == s[0];
        if m == 10 {
          assert w[m + 1] == name[|pid| + 1] == s[1];
          assert w[m + 1] != t[m + 1];
        } else {
          assert w[m] != t[m];
        }
      }
    }
  }

  /** The refactored program names its preprocessed file `Preprocessed Data`
      while its preprocessed pattern looks for `Downloaded Preprocessed`: for
      any participant id not itself holding that text, the file is never
      moved into the preprocessed folder. */
  lemma PreprocessedNotOrganized(v: Variant, t: DataType, pid: string, today: Date)
    requires v.Refactored? && t == Preprocessed
    requires IsValid(today) && !Contains(pid, "Downloaded Preprocessed")
    ensures !Matches(KeywordCsv(Keyword(CategoryOf(t))), FileName(v, pid, Lookup(v, t).value, today))
  {
    var e := Lookup(v, t).value;
    var s := " Chronicle" + NameMiddle(v, e) + DateSuffix(today);
    PreprocessedSuffix(v, t, today);
    Regroup3(pid, " Chronicle", NameMiddle(v, e), DateSuffix(today));
    NotAcross(pid, s);
    assert Keyword(CategoryOf(t)) == "Downloaded Preprocessed";
    NoKeywordMatch(Keyword(CategoryOf(t)), pid + s);
  }

  lemma Regroup3(p: string, a: string, m: string, d: string)
    ensures p + a + m + d == p + (a + m + d)
  {
  }

  /** A keyword pattern does not match a name the keyword never occurs in. */
  lemma NoKeywordMatch(kw: string, name: string)
    requires forall i :: !OccursAt(name, kw, i)
    ensures !Matches(KeywordCsv(kw), name)
  {
  }

  /** The script's preprocessed label holds its pattern's keyword. */
  lemma LegacyPreprocessedOrganized(pid: string, today: Date)
    requires IsValid(today)
    ensures Matches(KeywordCsv(Keyword(PreprocessedFiles)), FileName(Legacy, pid, Lookup(Legacy, Preprocessed).value, today))
  {
    DownloadedNameOrganized(Legacy, pid, Preprocessed, today);
  }
}
