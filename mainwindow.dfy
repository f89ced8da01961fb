/** The main window's part in a download, as an object: whether one is
    running, the shared HTTP client, and the routine that downloads one kind
    of data for one participant with its retries. Each method is proved to
    change the state exactly as the matching function of `Downloader` says;
    what those functions guarantee is proved there. */
module MainWindow {
  import opened Common
  import opened Enums
  import opened Dates
  import opened Registry
  import opened Retry
  import opened FileSystem
  import opened Worker
  import opened Downloader
  import opened ParticipantFilter

  class Window {
    var downloadActive: bool
    /** `_http_client` is set and not closed. */
    var clientOpen: bool
    /** How many clients `_get_client` has created. */
    var clientsCreated: nat
    /** The URL of every request sent so far; the data request numbered `n`
        is answered by the environment's `respond(n)`. */
    var requests: seq<string>
    /** How many times the worker's cancel flag has been read. */
    var polls: nat
    /** The downloads started so far, in order. */
    ghost var issued: seq<Task>

    /** This window and the worker `w`, seen as one state. */
    ghost function Snap(w: DownloadWorker): World
      reads this, w
    {
      World(w.isCancelled, w.signals, w.currentProgress, w.completedDownloads, w.totalDownloads,
            downloadActive, clientOpen, clientsCreated, requests, polls, issued)
    }

    constructor ()
      ensures !downloadActive && !clientOpen && clientsCreated == 0
      ensures requests == [] && polls == 0 && issued == []
    {
      downloadActive := false;
      clientOpen := false;
      clientsCreated := 0;
      requests := [];
      polls := 0;
      issued := [];
    }

    /** Returns the open client, creating one when there is none or it was closed. */
    method GetClient(ghost w: DownloadWorker)
      modifies this
      ensures Snap(w) == WithClient(old(Snap(w)))
    {
      if !clientOpen {
        clientOpen := true;
        clientsCreated := clientsCreated + 1;
      }
    }

    /** Closes the client if it is open, and forgets it. */
    method CloseClient(ghost w: DownloadWorker)
      modifies this
      ensures Snap(w) == WithoutClient(old(Snap(w)))
    {
      clientOpen := false;
    }

    /** Reads the worker's cancel flag; the user's press of cancel, if it is
        due just before this read, lands first. */
    method Poll(w: DownloadWorker, env: Env) returns (cancelled: bool)
      modifies this, w
      ensures Snap(w) == Polled(env, old(Snap(w)))
      ensures cancelled == w.isCancelled
    {
      if env.cancelAt == Some(polls) {
        w.Cancel();
      }
      polls := polls + 1;
      cancelled := w.isCancelled;
    }

    /** One pass through the body of the download routine up to the answer. */
    method Attempt(w: DownloadWorker, s: Settings, env: Env, pid: string, t: DataType) returns (a: Stage)
      modifies this, w
      ensures Attempted(a, Snap(w)) == AttemptFrom(s, env, pid, t, old(Snap(w)))
    {
      var cancelled := Poll(w, env);
      if cancelled {
        return Stopped;
      }
      var e := Lookup(s.v, t);
      if e.Err? {
        return NoEntry;
      }
      cancelled := Poll(w, env);
      if cancelled {
        return Stopped;
      }
      GetClient(w);
      var o := env.respond(|requests|);
      requests := requests + [DataUrl(s, pid, t, e.value)];
      return Answered(e.value, o);
    }

    /** `_download_participant_Chronicle_data_type` from retry `retryCount`:
        a status or transport failure the retry rule accepts waits, closes
        the client after a transport failure, and calls the routine again. */
    method DownloadDataType(w: DownloadWorker, s: Settings, env: Env, pid: string, t: DataType, fs: Fs, retryCount: nat)
      returns (r: Result<bool>, fs': Fs)
      requires IsValid(s.today)
      modifies this, w
      ensures Downloaded(r, fs', Snap(w)) == DownloadFrom(s, env, pid, t, fs, retryCount, old(Snap(w)))
      decreases RetriesLeft(s, retryCount)
    {
      var a := Attempt(w, s, env, pid, t);
      RetryEnds(s, env, pid, t, retryCount, old(Snap(w)));
      match a
      case Stopped =>
        return Ok(false), fs;
      case NoEntry =>
        return Err(UnknownDataType), fs;
      case Answered(e, o) =>
        match Decide(o, retryCount, s.cfg)
        case Done =>
          var saved := Save(fs, s.folder, FileName(s.v, pid, e, s.today), o.size);
          if saved.Err? {
            return Err(saved.failure), AfterMkdir(fs, s.folder);
          }
          return Ok(true), saved.value;
        case Raise(f) =>
          return Err(f), fs;
        case Again(delay, close) =>
          if close {
            CloseClient(w);
          }
          r, fs' := DownloadDataType(w, s, env, pid, t, fs, retryCount + 1);
          DownloadAgain(s, env, pid, t, fs, retryCount, old(Snap(w)));
    }
  
    /** `worker.update_progress(value, completed, total)`, seen from the run. */
    method UpdateProgress(w: DownloadWorker, value: int, completed: Option<nat>, total: Option<nat>)
      modifies w
      ensures Snap(w) == Updated(old(Snap(w)), value, completed, total)
    {
      w.UpdateProgress(value, completed, total);
    }

    /** One kind of data for one participant in the loop: downloaded when its
        box is checked, and counted with a progress update when the download
        returns `True`; an exception leaves the loop. */
    method DownloadKind(w: DownloadWorker, s: Settings, env: Env, pid: string, t: DataType, total: nat,
                        completed: nat, fs: Fs)
      returns (halt: Halt, completed': nat, fs': Fs)
      requires IsValid(s.today)
      modifies this, w
      ensures Pass(halt, completed', fs', Snap(w)) == KindStep(s, env, pid, t, total, Pass(Going, completed, fs, old(Snap(w))))
    {
      halt, completed', fs' := Going, completed, fs;
      if t !in s.checked {
        return;
      }
      issued := issued + [Task(pid, t)];
      ghost var st := Snap(w);
      assert st == old(Snap(w)).(issued := old(Snap(w)).issued + [Task(pid, t)]);
      var r;
      r, fs' := DownloadDataType(w, s, env, pid, t, fs, 0);
      ghost var d := Downloaded(r, fs', Snap(w));
      assert KindStep(s, env, pid, t, total, Pass(Going, completed, fs, old(Snap(w)))) == Counted(d, completed, total);
      match r
      case Err(f) =>
        halt := Raised(f);
      case Ok(saved) =>
        if saved {
          completed' := completed + 1;
          UpdateProgress(w, Reported(completed', total), Some(completed'), Some(total));
        }
    }

    /** One kind `order[j]` and, unless it was the last or it raised, the
        check of the cancel flag that ends the loop when the flag is set. */
    method KindThenCheck(w: DownloadWorker, s: Settings, env: Env, pid: string, order: seq<DataType>, j: nat, total: nat,
                         completed: nat, fs: Fs)
      returns (halt: Halt, completed': nat, fs': Fs)
      requires IsValid(s.today) && j < |order|
      modifies this, w
      ensures Pass(halt, completed', fs', Snap(w)) == KindNext(s, env, pid, order, j, total, Pass(Going, completed, fs, old(Snap(w))))
    {
      halt, completed', fs' := DownloadKind(w, s, env, pid, order[j], total, completed, fs);
      ghost var q := Pass(halt, completed', fs', Snap(w));
      if halt.Going? && j + 1 < |order| {
        var cancelled := Poll(w, env);
        if cancelled {
          halt := Broke;
        }
      }
      assert Pass(halt, completed', fs', Snap(w)) == AfterKind(env, j + 1 == |order|, q);
    }

    /** The kinds of one participant in loop order, reading the cancel flag
        after each kind but the last and leaving the loop when it is set. */
    method DownloadKinds(w: DownloadWorker, s: Settings, env: Env, pid: string, total: nat, completed: nat, fs: Fs)
      returns (halt: Halt, completed': nat, fs': Fs)
      requires IsValid(s.today)
      modifies this, w
      ensures Pass(halt, completed', fs', Snap(w)) == KindsFrom(s, env, pid, DownloadOrder(s.v), 0, total, Pass(Going, completed, fs, old(Snap(w))))
    {
      var order := DownloadOrder(s.v);
      ghost var start := Pass(Going, completed, fs, Snap(w));
      halt, completed', fs' := Going, completed, fs;
      var j := 0;
      while j < |order| && halt.Going?
        invariant j <= |order|
        invariant KindsFrom(s, env, pid, order, j, total, Pass(halt, completed', fs', Snap(w)))
               == KindsFrom(s, env, pid, order, 0, total, start)
        decreases |order| - j
      {
        ghost var p := Pass(halt, completed', fs', Snap(w));
        halt, completed', fs' := KindThenCheck(w, s, env, pid, order, j, total, completed', fs');
        assert KindsFrom(s, env, pid, order, j, total, p) == KindsFrom(s, env, pid, order, j + 1, total, KindNext(s, env, pid, order, j, total, p));
        j := j + 1;
      }
    }

    /** One participant: the check of the cancel flag, then its kinds. */
    method DownloadParticipant(w: DownloadWorker, s: Settings, env: Env, pid: string, total: nat, completed: nat, fs: Fs)
      returns (halt: Halt, completed': nat, fs': Fs)
      requires IsValid(s.today)
      modifies this, w
      ensures Pass(halt, completed', fs', Snap(w)) == ParticipantNext(s, env, pid, total, Pass(Going, completed, fs, old(Snap(w))))
    {
      var cancelled := Poll(w, env);
      if cancelled {
        return Broke, completed, fs;
      }
      halt, completed', fs' := DownloadKinds(w, s, env, pid, total, completed, fs);
    }

    /** The loop over the filtered participants: progress 10 with none of the
        planned downloads done, then for each participant a read of the
        cancel flag and its kinds. */
    method DownloadParticipants(w: DownloadWorker, s: Settings, env: Env, ids: seq<string>, fs: Fs)
      returns (halt: Halt, completed: nat, fs': Fs)
      requires IsValid(s.today)
      modifies this, w
      ensures Pass(halt, completed, fs', Snap(w)) == LoopFrom(s, env, ids, fs, old(Snap(w)))
    {
      var total := |ids| * |CheckedOrder(s.v, s.checked)|;
      UpdateProgress(w, 10, Some(0), Some(total));
      ghost var start := Pass(Going, 0, fs, Snap(w));
      halt, completed, fs' := Going, 0, fs;
      var i := 0;
      while i < |ids| && halt.Going?
        invariant i <= |ids|
        invariant ParticipantsFrom(s, env, ids, i, total, Pass(halt, completed, fs', Snap(w)))
               == ParticipantsFrom(s, env, ids, 0, total, start)
        decreases |ids| - i
      {
        ghost var p := Pass(halt, completed, fs', Snap(w));
        halt, completed, fs' := DownloadParticipant(w, s, env, ids[i], total, completed, fs');
        assert ParticipantsFrom(s, env, ids, i, total, p) == ParticipantsFrom(s, env, ids, i + 1, total, ParticipantNext(s, env, ids[i], total, p));
        i := i + 1;
      }
    }

    /** `download_participant_Chronicle_data_from_study`: the run is marked
        active, the statistics request lists the participants, an empty
        filtered list raises, the loop runs, and on every exit the client is
        closed and the run marked inactive. */
    method DownloadFromStudy(w: DownloadWorker, s: Settings, env: Env, fs: Fs)
      returns (halt: Halt, completed: nat, fs': Fs)
      requires IsValid(s.today)
      modifies this, w
      ensures Pass(halt, completed, fs', Snap(w)) == StudyFrom(s, env, fs, old(Snap(w)))
    {
      downloadActive := true;
      GetClient(w);
      requests := requests + [StatsUrl(s.studyId)];
      halt, completed, fs' := Going, 0, fs;
      if env.stats.Err? {
        halt := Raised(env.stats.failure);
      } else {
        var ids := Filter(env.stats.value, s.filterText, s.inclusive);
        if ids == [] {
          halt := Raised(NoParticipants);
        } else {
          halt, completed, fs' := DownloadParticipants(w, s, env, ids, fs);
        }
      }
      CloseClient(w);
      downloadActive := false;
    }
  }
}
