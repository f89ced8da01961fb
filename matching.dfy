/** `get_matching_files_from_folder`: the files below a folder whose name
    the given pattern finds a match in, leaving out every file whose full
    path contains one of the ignore names. The regex engine is a parameter
    (`Search`); the patterns the program passes are given their meaning by
    `Matches`. */
module Matching {
  import opened Common
  import opened Strings
  import opened Dates
  import opened FileSystem

  /** The patterns the downloader passes. */
  datatype Pattern =
    | AnyCsv                    // `[\s\S]*.csv`
    | DatedCsv                  // the date token, then later `.csv`
    | KeywordCsv(keyword: string)  // the keyword, then later `.csv`
    | CsvEnd                    // `.*\.csv$`

  const AnyChars: string := @"[\s\S]*"

  function PatternText(p: Pattern): string {
    match p
    case AnyCsv => AnyChars + ".csv"
    case DatedCsv => "(" + AnyChars + @"(\d{2}[\.|-]\d{2}[\.|-]\d{4})" + AnyChars + ".csv)"
    case KeywordCsv(kw) => AnyChars + "(" + kw + ")" + AnyChars + ".csv"
    case CsvEnd => @".*\.csv$"
  }

  /** `.csv` with an unescaped dot: any character but a newline, then `csv`. */
  predicate CsvAt(s: string, j: int) {
    0 <= j && j + 4 <= |s| && s[j] != '\n' && s[j + 1] == 'c' && s[j + 2] == 's' && s[j + 3] == 'v'
  }

  predicate CsvFrom(s: string, k: int) {
    exists j :: k <= j < |s| && CsvAt(s, j)
  }

  /** `re.search(PatternText(p), name)` finds a match. */
  predicate Matches(p: Pattern, name: string) {
    match p
    case AnyCsv => CsvFrom(name, 0)
    case DatedCsv => exists i :: 0 <= i < |name| && IsTokenAt(name, i) && CsvFrom(name, i + 10)
    case KeywordCsv(kw) => exists i :: 0 <= i <= |name| && OccursAt(name, kw, i) && CsvFrom(name, i + |kw|)
    case CsvEnd => EndsWith(name, ".csv") || EndsWith(name, ".csv\n")
  }

  /** A name ending in `.csv` matches the end-anchored pattern, and every
      name the end-anchored or a keyword pattern matches is also matched by
      the loose `[\s\S]*.csv`. */
  lemma MatchesOrdered(name: string, kw: string)
    ensures EndsWith(name, ".csv") ==> Matches(CsvEnd, name)
    ensures Matches(CsvEnd, name) ==> Matches(AnyCsv, name)
    ensures Matches(KeywordCsv(kw), name) ==> Matches(AnyCsv, name)
    ensures Matches(DatedCsv, name) ==> Matches(AnyCsv, name)
  {
    if EndsWith(name, ".csv") {
      var j := |name| - 4;
      assert name[j..] == ".csv";
      assert name[j] == '.' && CsvAt(name, j);
    } else if EndsWith(name, ".csv\n") {
      var j := |name| - 5;
      assert name[j..] == ".csv\n";
      assert name[j] == '.' && CsvAt(name, j);
    }
  }

  /** The regex engine applied to a file name: `Some(found)`, or `None` when
      the pattern does not compile (`re.error`). */
  type Search = string -> Option<bool>

  /** The engine on one of the program's patterns: it always compiles. */
  function SearchOf(p: Pattern): Search {
    (name: string) => Some(Matches(p, name))
  }

  /** `any(ignored in str(f) for ignored in ignore)`. */
  predicate Ignored(ignore: seq<string>, f: FilePath) {
    exists k :: 0 <= k < |ignore| && Contains(Text(f), ignore[k])
  }

  /** `if not ignore_names: ignore_names = []`. */
  function IgnoreList(ignoreNames: Option<seq<string>>): seq<string> {
    if ignoreNames.None? then [] else ignoreNames.value
  }

  /** The keyword test used when the pattern does not compile: the lowered
      pattern and name share a category keyword, or both end in `.csv`. */
  predicate KeywordFallback(pattern: string, name: string) {
    var p, n := Lower(pattern), Lower(name);
    (Contains(p, "raw") && Contains(n, "raw"))
    || (Contains(p, "survey") && Contains(n, "survey"))
    || (Contains(p, "iossensor") && Contains(n, "iossensor"))
    || (Contains(p, "preprocessed") && Contains(n, "preprocessed"))
    || (Contains(p, "time use diary") && Contains(n, "time use diary"))
    || (EndsWith(p, ".csv") && EndsWith(n, ".csv"))
  }

  /** The test of a file name on the listing path. */
  predicate NameWanted(pattern: string, search: Search, name: string) {
    match search(name)
    case Some(found) => found
    case None => KeywordFallback(pattern, name)
  }

  /** The test of a file name on the `os.walk` path: on `re.error`, the
      pattern without its `[\s\S]*` parts occurs in the name, ignoring case. */
  predicate WalkWanted(pattern: string, search: Search, name: string) {
    match search(name)
    case Some(found) => found
    case None => Contains(Lower(name), Lower(RemoveAll(pattern, AnyChars)))
  }

  predicate Wanted(e: Entry, pattern: string, search: Search, ignore: seq<string>) {
    e.isFile && !Ignored(ignore, e.path) && NameWanted(pattern, search, e.path.name)
  }

  /** The listing path: the wanted entries' paths, in listing order. */
  function Kept(es: seq<Entry>, pattern: string, search: Search, ignore: seq<string>): seq<FilePath>
    decreases |es|
  {
    if |es| == 0 then []
    else
      var last := es[|es| - 1];
      Kept(es[..|es| - 1], pattern, search, ignore) + (if Wanted(last, pattern, search, ignore) then [last.path] else [])
  }

  /** The `os.walk` path, taken when listing the folder raised. */
  function KeptWalk(ws: seq<FilePath>, pattern: string, search: Search, ignore: seq<string>): seq<FilePath>
    decreases |ws|
  {
    if |ws| == 0 then []
    else
      var last := ws[|ws| - 1];
      KeptWalk(ws[..|ws| - 1], pattern, search, ignore)
        + (if !Ignored(ignore, last) && WalkWanted(pattern, search, last.name) then [last] else [])
  }

  /** What the helper returns: `listing` is the `rglob("*")` enumeration, or
      `None` when it raised; `walk` is the files `os.walk` enumerates. */
  function Selected(listing: Option<seq<Entry>>, walk: seq<FilePath>, pattern: string, search: Search,
                    ignoreNames: Option<seq<string>>): seq<FilePath>
  {
    match listing
    case Some(es) => Kept(es, pattern, search, IgnoreList(ignoreNames))
    case None => KeptWalk(walk, pattern, search, IgnoreList(ignoreNames))
  }

  method MatchingFiles(listing: Option<seq<Entry>>, walk: seq<FilePath>, pattern: string, search: Search,
                       ignoreNames: Option<seq<string>>) returns (r: seq<FilePath>)
    ensures r == Selected(listing, walk, pattern, search, ignoreNames)
  {
    var ignore := IgnoreList(ignoreNames);
    if listing.Some? {
      r := MatchListed(listing.value, pattern, search, ignore);
    } else {
      r := MatchWalked(walk, pattern, search, ignore);
    }
  }

  /** The loop over the `rglob("*")` entries. */
  method MatchListed(es: seq<Entry>, pattern: string, search: Search, ignore: seq<string>) returns (r: seq<FilePath>)
    ensures r == Kept(es, pattern, search, ignore)
  {
    r := [];
    var i := 0;
    while i < |es|
      invariant 0 <= i <= |es|
      invariant r == Kept(es[..i], pattern, search, ignore)
    {
      var f := es[i];
      assert es[..i + 1][..i] == es[..i];
      if f.isFile && !Ignored(ignore, f.path) {
        match search(f.path.name)
        case Some(found) =>
          if found {
            r := r + [f.path];
          }
        case None =>
          if KeywordFallback(pattern, f.path.name) {
            r := r + [f.path];
          }
      }
      i := i + 1;
    }
    assert es[..|es|] == es;
  }

  /** The loop over the files `os.walk` yields. */
  method MatchWalked(walk: seq<FilePath>, pattern: string, search: Search, ignore: seq<string>) returns (r: seq<FilePath>)
    ensures r == KeptWalk(walk, pattern, search, ignore)
  {
    r := [];
    var i := 0;
    while i < |walk|
      invariant 0 <= i <= |walk|
      invariant r == KeptWalk(walk[..i], pattern, search, ignore)
    {
      var f := walk[i];
      assert walk[..i + 1][..i] == walk[..i];
      if !Ignored(ignore, f) {
        match search(f.name)
        case Some(found) =>
          if found {
            r := r + [f];
          }
        case None =>
          if Contains(Lower(f.name), Lower(RemoveAll(pattern, AnyChars))) {
            r := r + [f];
          }
      }
      i := i + 1;
    }
    assert walk[..|walk|] == walk;
  }

  /** A path is returned exactly when the listing holds it as a regular file,
      no ignore name occurs in its full path, and its name is wanted. */
  lemma {:induction false} KeptMembership(es: seq<Entry>, pattern: string, search: Search, ignore: seq<string>, f: FilePath)
    ensures f in Kept(es, pattern, search, ignore) <==>
      Entry(f, true) in es && !Ignored(ignore, f) && NameWanted(pattern, search, f.name)
    decreases |es|
  {
    if |es| > 0 {
      var init := es[..|es| - 1];
      KeptMembership(init, pattern, search, ignore, f);
      assert es == init + [es[|es| - 1]];
    }
  }

  /** The result keeps the listing's order: selecting from two pieces is
      selecting from each and concatenating. */
  lemma {:induction false} KeptAppend(a: seq<Entry>, b: seq<Entry>, pattern: string, search: Search, ignore: seq<string>)
    ensures Kept(a + b, pattern, search, ignore) == Kept(a, pattern, search, ignore) + Kept(b, pattern, search, ignore)
    decreases |b|
  {
    if |b| > 0 {
      var init := b[..|b| - 1];
      KeptAppend(a, init, pattern, search, ignore);
      assert (a + b)[..|a + b| - 1] == a + init;
    } else {
      assert a + b == a;
    }
  }

  /** Each path is returned at most once when the listing names each entry once. */
  lemma {:induction false} KeptDistinct(es: seq<Entry>, pattern: string, search: Search, ignore: seq<string>)
    requires forall i, j :: 0 <= i < j < |es| ==> es[i] != es[j]
    ensures var r := Kept(es, pattern, search, ignore);
      forall i, j :: 0 <= i < j < |r| ==> r[i] != r[j]
    decreases |es|
  {
    if |es| > 0 {
      var init := es[..|es| - 1];
      var last := es[|es| - 1];
      KeptDistinct(init, pattern, search, ignore);
      assert Kept(es, pattern, search, ignore) ==
        Kept(init, pattern, search, ignore) + (if Wanted(last, pattern, search, ignore) then [last.path] else []);
      if Wanted(last, pattern, search, ignore) {
        KeptMembership(init, pattern, search, ignore, last.path);
        assert last == Entry(last.path, true);
        assert forall i :: 0 <= i < |init| ==> init[i] == es[i] && es[i] != es[|es| - 1];
        assert last !in init;
        assert last.path !in Kept(init, pattern, search, ignore);
      }
    }
  }

  /** Without ignore names (`None` or an empty list) nothing is excluded. */
  lemma NothingIgnored(es: seq<Entry>, pattern: string, search: Search, ignoreNames: Option<seq<string>>, f: FilePath)
    requires ignoreNames == None || ignoreNames == Some([])
    ensures f in Selected(Some(es), [], pattern, search, ignoreNames) <==>
      Entry(f, true) in es && NameWanted(pattern, search, f.name)
  {
    KeptMembership(es, pattern, search, [], f);
  }

  /** Only the file name is tested against the pattern: two files with the
      same name that no ignore name hits are both kept or both dropped. */
  lemma NameOnly(f: FilePath, g: FilePath, pattern: string, search: Search, ignore: seq<string>)
    requires f.name == g.name && !Ignored(ignore, f) && !Ignored(ignore, g)
    ensures Wanted(Entry(f, true), pattern, search, ignore) == Wanted(Entry(g, true), pattern, search, ignore)
  {
  }

  /** With one of the program's patterns the fallback is never taken: the
      result is the listed, non-ignored files whose name the pattern matches. */
  lemma ProgramPatternsSelect(es: seq<Entry>, p: Pattern, ignoreNames: Option<seq<string>>, f: FilePath)
    ensures f in Selected(Some(es), [], PatternText(p), SearchOf(p), ignoreNames) <==>
      Entry(f, true) in es && !Ignored(IgnoreList(ignoreNames), f) && Matches(p, f.name)
  {
    KeptMembership(es, PatternText(p), SearchOf(p), IgnoreList(ignoreNames), f);
  }

  /** Applied to a full `rglob` enumeration: exactly the files below the
      folder, not ignored, whose name the pattern matches. */
  lemma ListedSelection(fs: Fs, folder: seq<string>, listing: seq<Entry>, p: Pattern, ignore: seq<string>, f: FilePath)
    requires forall e :: e in listing <==> e in Listing(fs, folder)
    ensures f in Kept(listing, PatternText(p), SearchOf(p), ignore) <==>
      f in fs.files && Under(folder, f.dir) && !Ignored(ignore, f) && Matches(p, f.name)
  {
    KeptMembership(listing, PatternText(p), SearchOf(p), ignore, f);
    assert Entry(f, true) in Listing(fs, folder) <==> f in fs.files && Under(folder, f.dir);
  }

  /** The files below `folder` that `ignore` leaves and `p` matches by name. */
  predicate Candidate(fs: Fs, folder: seq<string>, ignore: seq<string>, p: Pattern, f: FilePath) {
    f in fs.files && Under(folder, f.dir) && !Ignored(ignore, f) && Matches(p, f.name)
  }

  /** `files` lists every candidate exactly once. */
  ghost predicate ListsCandidates(fs: Fs, folder: seq<string>, ignore: seq<string>, p: Pattern, files: seq<FilePath>) {
    (forall f :: f in files <==> Candidate(fs, folder, ignore, p, f))
    && (forall i, j :: 0 <= i < j < |files| ==> files[i] != files[j])
  }

  /** The helper, given a full `rglob` enumeration and one of the program's
      patterns, lists every candidate exactly once. */
  lemma ListedSelectionAll(fs: Fs, folder: seq<string>, listing: seq<Entry>, p: Pattern, ignore: seq<string>)
    requires forall e :: e in listing <==> e in Listing(fs, folder)
    requires forall i, j :: 0 <= i < j < |listing| ==> listing[i] != listing[j]
    ensures ListsCandidates(fs, folder, ignore, p, Kept(listing, PatternText(p), SearchOf(p), ignore))
  {
    forall f ensures f in Kept(listing, PatternText(p), SearchOf(p), ignore) <==> Candidate(fs, folder, ignore, p, f) {
      ListedSelection(fs, folder, listing, p, ignore, f);
    }
    KeptDistinct(listing, PatternText(p), SearchOf(p), ignore);
  }

  lemma LowerCsv()
    ensures Lower(".csv") == ".csv"
  {
    assert Lower(".csv") == [LowerChar('.')] + Lower("csv");
    assert Lower("csv") == [LowerChar('c')] + Lower("sv");
    assert Lower("sv") == [LowerChar('s')] + Lower("v");
    assert Lower("v") == [LowerChar('v')] + Lower("");
  }

  /** The pattern texts of the loose and the keyword patterns end in `.csv`
      once lowered. */
  lemma PatternTextsEndInCsv(kw: string)
    ensures EndsWith(Lower(PatternText(AnyCsv)), ".csv")
    ensures EndsWith(Lower(PatternText(KeywordCsv(kw))), ".csv")
  {
    LowerCsv();
    LowerEndsWith(AnyChars, ".csv");
    var k := AnyChars + "(" + kw + ")" + AnyChars;
    assert PatternText(KeywordCsv(kw)) == k + ".csv";
    LowerEndsWith(k, ".csv");
  }

  /** The dated and end-anchored pattern texts do not end in `.csv`. */
  lemma PatternTextEndsOtherwise(p: Pattern)
    requires p.DatedCsv? || p.CsvEnd?
    ensures !EndsWith(Lower(PatternText(p)), ".csv")
  {
    if p.DatedCsv? {
      var d := "(" + AnyChars + @"(\d{2}[\.|-]\d{2}[\.|-]\d{4})" + AnyChars + ".csv";
      assert PatternText(p) == d + ")";
      LastLowered(d, ')');
    } else {
      var e := @".*\.csv";
      assert PatternText(p) == e + "$";
      LastLowered(e, '$');
    }
  }

  lemma LowerEndsWith(a: string, b: string)
    ensures EndsWith(Lower(a + b), Lower(b))
  {
    LowerAppend(a, b);
    EndsWithAppend(Lower(a), Lower(b));
  }

  /** Lowering keeps a last character that is not a letter. */
  lemma LastLowered(a: string, c: char)
    requires !('A' <= c <= 'Z')
    ensures var l := Lower(a + [c]); |l| > 0 && l[|l| - 1] == c
    ensures c != 'v' ==> !EndsWith(Lower(a + [c]), ".csv")
  {
    LowerAppend(a, [c]);
    assert Lower([c]) == [LowerChar(c)] + Lower([]);
    var l := Lower(a + [c]);
    if |l| >= 4 {
      assert l[|l| - 4..][3] == l[|l| - 1];
    }
  }

  /** Were the loose or a keyword pattern ever to fail to compile, the
      fallback would accept every `.csv` file whatever its category. */
  lemma FallbackAcceptsAnyCsv(kw: string, name: string)
    requires EndsWith(Lower(name), ".csv")
    ensures KeywordFallback(PatternText(AnyCsv), name)
    ensures KeywordFallback(PatternText(KeywordCsv(kw)), name)
  {
    PatternTextsEndInCsv(kw);
    FallbackOnCsvEnding(PatternText(AnyCsv), name);
    FallbackOnCsvEnding(PatternText(KeywordCsv(kw)), name);
  }

  lemma FallbackOnCsvEnding(pattern: string, name: string)
    requires EndsWith(Lower(pattern), ".csv") && EndsWith(Lower(name), ".csv")
    ensures KeywordFallback(pattern, name)
  {
  }

  /** The single-file script's comprehension: it tests `is_file()`, then
      searches the name, then the ignore names, so a pattern that does not
      compile raises at the first regular file, ignored or not. */
  function LegacyMatching(es: seq<Entry>, pattern: string, search: Search, ignore: seq<string>): (r: Result<seq<FilePath>>)
    ensures r.Err? ==> r.failure == BadPattern
    decreases |es|
  {
    if |es| == 0 then Ok([])
    else if !es[0].isFile then LegacyMatching(es[1..], pattern, search, ignore)
    else match search(es[0].path.name)
      case None => Err(BadPattern)
      case Some(found) =>
        var rest := LegacyMatching(es[1..], pattern, search, ignore);
        if rest.Err? then rest
        else if found && !Ignored(ignore, es[0].path) then Ok([es[0].path] + rest.value)
        else rest
  }

  /** The script raises exactly when the engine fails on some listed regular
      file; otherwise it returns what the refactored helper returns. */
  lemma {:induction false} LegacyAgrees(es: seq<Entry>, pattern: string, search: Search, ignore: seq<string>)
    ensures LegacyMatching(es, pattern, search, ignore).Err? <==>
      exists k :: 0 <= k < |es| && es[k].isFile && search(es[k].path.name).None?
    ensures LegacyMatching(es, pattern, search, ignore).Ok? ==>
      LegacyMatching(es, pattern, search, ignore).value == Kept(es, pattern, search, ignore)
    decreases |es|
  {
    if |es| > 0 {
      var tail := es[1..];
      LegacyAgrees(tail, pattern, search, ignore);
      assert es == [es[0]] + tail;
      KeptAppend([es[0]], tail, pattern, search, ignore);
      assert [es[0]][..0] == [];
      if exists k :: 0 <= k < |tail| && tail[k].isFile && search(tail[k].path.name).None? {
        var k :| 0 <= k < |tail| && tail[k].isFile && search(tail[k].path.name).None?;
        assert es[k + 1] == tail[k];
      }
      if exists k :: 0 <= k < |es| && es[k].isFile && search(es[k].path.name).None? {
        var k :| 0 <= k < |es| && es[k].isFile && search(es[k].path.name).None?;
        if k > 0 {
          assert tail[k - 1] == es[k];
        }
      }
    }
  }

  /** The script lists `rglob("**")`. Before Python 3.13 that pattern yields
      directories only; on such a listing the helper finds nothing, so the
      script's archive and organize passes would touch no file. */
  lemma {:induction false} LegacyDirectoriesOnly(es: seq<Entry>, pattern: string, search: Search, ignore: seq<string>)
    requires forall k :: 0 <= k < |es| ==> !es[k].isFile
    ensures LegacyMatching(es, pattern, search, ignore) == Ok([])
    decreases |es|
  {
    if |es| > 0 {
      assert !es[0].isFile;
      LegacyDirectoriesOnly(es[1..], pattern, search, ignore);
    }
  }
}
