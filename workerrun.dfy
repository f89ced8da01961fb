/** The worker thread's `_run` (and the `run` that wraps it): the checks of
    the form, the download of the whole study, and on success the archive
    and organize passes with the progress steps 90, 95 and 100 and the
    `finished` signal. An exception ends the run with an `error` signal. */
module WorkerRun {
  import opened Common
  import opened Strings
  import opened Dates
  import opened Registry
  import opened FileSystem
  import opened Worker
  import opened Downloader
  import opened MainWindow
  import opened Archive
  import opened Organize
  import opened Matching

  /** The settings a run uses are the form's: the chosen folder, the
      stripped study id, the inclusive checkbox and the filter text. */
  predicate FromForm(f: Form, s: Settings) {
    && (f.downloadFolder.Some? ==> s.folder == f.downloadFolder.value)
    && s.studyId == Strip(f.studyId)
    && s.inclusive == f.inclusive
    && s.filterText == f.filterText
  }

  /** The text of the `error` signal for what a run raised: the HTTP message
      for a status error, otherwise the generic message followed by the
      traceback `trace`. */
  function ErrorMessage(v: Variant, failure: Failure, trace: string): (r: string)
    ensures failure.HttpStatus? ==> r == HttpMessage(v, failure.code)
    ensures !failure.HttpStatus? ==> StartsWith(r, GenericErrorMessage) && r[|GenericErrorMessage|..] == trace
  {
    if failure.HttpStatus? then HttpMessage(v, failure.code)
    else
      StartsWithAppend(GenericErrorMessage, trace);
      GenericErrorMessage + trace
  }

  /** How the passes after an uncancelled download, started on the folder
      `fs` and the state `st`, can end: progress 90 and the archive pass;
      if it raised, the generic error message; otherwise what follows it. */
  ghost predicate Concluded(s: Settings, deleteEmpty: bool, trace: string, fs: Fs, st: World, st': World, r: Result<Fs>) {
    var st90 := st.(progress := 90, signals := st.signals + [Progress(90)]);
    exists archived ::
      && ArchiveOutcome(fs, s.folder, s.today, archived)
      && (archived.Err? ==> r == archived && st' == st90.(signals := st90.signals + [Error(GenericErrorMessage + trace)]))
      && (archived.Ok? ==> Organized(s, deleteEmpty, trace, archived.value, st90, st', r))
  }

  /** How the rest of the run, from the archived folder `fs` and the state
      `st`, can end: progress 95 and the organize pass; if it raised, the
      generic error message; otherwise progress 100 and `finished`, with the
      wanted category folders in place. */
  ghost predicate Organized(s: Settings, deleteEmpty: bool, trace: string, fs: Fs, st: World, st': World, r: Result<Fs>) {
    && OrganizeOutcome(s.v, fs, s.folder, s.checked, deleteEmpty, r)
    && (r.Ok? ==>
          && st' == st.(progress := 100, signals := st.signals + [Progress(95), Progress(100), Finished])
          && (forall c :: c in Categories(s.v) && FolderWanted(s.v, c, s.checked) ==> Dest(s.v, s.folder, c) in r.value.dirs))
    && (r.Err? ==> st' == st.(progress := 95, signals := st.signals + [Progress(95), Error(GenericErrorMessage + trace)]))
  }

  /** How a run that passed its checks ended, given the outcome `q` of the
      study download: an exception is reported with its message; otherwise
      the flag is read once more, and a cancel ends the run silently, while
      without one the passes run. `r` is the state of the download folder
      when the run ends, or the exception an archive or organize pass
      raised; it is not whether the download succeeded, which only the
      signals in `st'` tell. */
  ghost predicate Ended(s: Settings, env: Env, deleteEmpty: bool, trace: string, q: Pass, st': World, r: Result<Fs>) {
    && (q.halt.Raised? ==> st' == q.st.(signals := q.st.signals + [Error(ErrorMessage(s.v, q.halt.failure, trace))]) && r == Ok(q.fs))
    && (!q.halt.Raised? ==>
          var p := Polled(env, q.st);
          && (p.cancelled ==> st' == p && r == Ok(q.fs))
          && (!p.cancelled ==> Concluded(s, deleteEmpty, trace, q.fs, p, st', r)))
  }

  /** `run`: `_run` with its checks, then `progress(0)` and the rest of the
      run; `r` is the folder afterwards, or what a pass raised (the files it
      changed before raising are not kept). A failed check reports its
      message and changes nothing else. */
  method Run(w: DownloadWorker, win: Window, f: Form, s: Settings, deleteEmpty: bool, env: Env, trace: string, fs: Fs)
    returns (r: Result<Fs>)
    requires IsValid(s.today) && FromForm(f, s)
    modifies w, win
    ensures Validate(f).Some? ==>
      && win.Snap(w) == old(win.Snap(w)).(signals := old(w.signals) + [Error(Validate(f).value)])
      && r == Ok(fs)
    ensures Validate(f).None? ==>
      Ended(s, env, deleteEmpty, trace, StudyFrom(s, env, fs, old(win.Snap(w)).(signals := old(w.signals) + [Progress(0)])), win.Snap(w), r)
  {
    var message := Validate(f);
    if message.Some? {
      w.Emit(Error(message.value));
      return Ok(fs);
    }
    w.Emit(Progress(0));
    r := RunStudy(w, win, s, deleteEmpty, env, trace, fs);
  }

  /** The `try` of `_run` and what follows it: the study download, its
      exception reported, a cancel noticed, or the passes. */
  method RunStudy(w: DownloadWorker, win: Window, s: Settings, deleteEmpty: bool, env: Env, trace: string, fs: Fs)
    returns (r: Result<Fs>)
    requires IsValid(s.today)
    modifies w, win
    ensures Ended(s, env, deleteEmpty, trace, StudyFrom(s, env, fs, old(win.Snap(w))), win.Snap(w), r)
  {
    var halt, completed, fs' := win.DownloadFromStudy(w, s, env, fs);
    if halt.Raised? {
      w.Emit(Error(ErrorMessage(s.v, halt.failure, trace)));
      return Ok(fs');
    }
    var cancelled := win.Poll(w, env);
    if cancelled {
      return Ok(fs');
    }
    r := Conclude(w, win, s, deleteEmpty, trace, fs');
  }

  /** The `else` branch of `_run` after a download nobody cancelled:
      progress 90, the archive pass, then the rest; an exception from the
      pass is reported by `run` with the generic message. */
  method Conclude(w: DownloadWorker, win: Window, s: Settings, deleteEmpty: bool, trace: string, fs: Fs)
    returns (r: Result<Fs>)
    modifies w
    ensures Concluded(s, deleteEmpty, trace, fs, old(win.Snap(w)), win.Snap(w), r)
  {
    win.UpdateProgress(w, 90, None, None);
    ghost var st90 := win.Snap(w);
    var archived := Archived(fs, s.folder, s.today);
    if archived.Err? {
      w.Emit(Error(GenericErrorMessage + trace));
      r := archived;
    } else {
      r := OrganizeThenFinish(w, win, s, deleteEmpty, trace, archived.value);
    }
    ConcludedAfter(s, deleteEmpty, trace, fs, old(win.Snap(w)), st90, win.Snap(w), archived, r);
  }

  /** The passes seen from the state `st90` after the report of 90. */
  lemma ConcludedAfter(s: Settings, deleteEmpty: bool, trace: string, fs: Fs, st: World, st90: World, st': World, archived: Result<Fs>, r: Result<Fs>)
    requires st90 == Updated(st, 90, None, None)
    requires ArchiveOutcome(fs, s.folder, s.today, archived)
    requires archived.Err? ==> r == archived && st' == st90.(signals := st90.signals + [Error(GenericErrorMessage + trace)])
    requires archived.Ok? ==> Organized(s, deleteEmpty, trace, archived.value, st90, st', r)
    ensures Concluded(s, deleteEmpty, trace, fs, st, st', r)
  {
    assert st90 == st.(progress := 90, signals := st.signals + [Progress(90)]);
  }

  /** What the archive pass can leave: the folder after archiving the
      dated candidates in some listing order, or what that raised. */
  ghost predicate ArchiveOutcome(fs: Fs, folder: seq<string>, today: Date, r: Result<Fs>) {
    exists files :: ListsCandidates(fs, folder, ArchiveIgnore, DatedCsv, files) && r == Fold(fs, files, ArchiveStep(today))
  }

  /** `archive_downloaded_data`, as the run sees it. */
  method Archived(fs: Fs, folder: seq<string>, today: Date) returns (r: Result<Fs>)
    ensures ArchiveOutcome(fs, folder, today, r)
  {
    ghost var files;
    r, files := ArchivePass(fs, folder, today);
  }

  /** After the archive pass: progress 95, the organize pass, progress 100
      and `finished`; an exception from the pass is reported with the
      generic message. */
  method OrganizeThenFinish(w: DownloadWorker, win: Window, s: Settings, deleteEmpty: bool, trace: string, fs: Fs)
    returns (r: Result<Fs>)
    modifies w
    ensures Organized(s, deleteEmpty, trace, fs, old(win.Snap(w)), win.Snap(w), r)
  {
    win.UpdateProgress(w, 95, None, None);
    ghost var st95 := win.Snap(w);
    r := OrganizePass(s.v, fs, s.folder, s.checked, deleteEmpty);
    if r.Err? {
      w.Emit(Error(GenericErrorMessage + trace));
    } else {
      win.UpdateProgress(w, 100, None, None);
      w.Emit(Finished);
    }
    OrganizedAfter(s, deleteEmpty, trace, fs, old(win.Snap(w)), st95, win.Snap(w), r);
  }

  /** The organize pass and its reports seen from the state `st95` after
      the report of 95. */
  lemma OrganizedAfter(s: Settings, deleteEmpty: bool, trace: string, fs: Fs, st: World, st95: World, st': World, r: Result<Fs>)
    requires st95 == Updated(st, 95, None, None)
    requires OrganizeOutcome(s.v, fs, s.folder, s.checked, deleteEmpty, r)
    requires r.Ok? ==> forall c :: c in Categories(s.v) ==>
      (Dest(s.v, s.folder, c) in r.value.dirs <==> FolderWanted(s.v, c, s.checked) || Dest(s.v, s.folder, c) in fs.dirs)
    requires r.Ok? ==> var st100 := Updated(st95, 100, None, None); st' == st100.(signals := st100.signals + [Finished])
    requires r.Err? ==> st' == st95.(signals := st95.signals + [Error(GenericErrorMessage + trace)])
    ensures Organized(s, deleteEmpty, trace, fs, st, st', r)
  {
    var e := Error(GenericErrorMessage + trace);
    assert st95 == st.(progress := 95, signals := st.signals + [Progress(95)]);
    assert (st.signals + [Progress(95)]) + [e] == st.signals + [Progress(95), e];
    assert (st.signals + [Progress(95)]) + [Progress(100)] + [Finished] == st.signals + [Progress(95), Progress(100), Finished];
  }
}
