/** The download routine of the main window: the HTTP client's lifecycle,
    one download with its retries, and the loop over participants and kinds
    of data that drives the progress bar. The network, the clock and the
    user's cancel button are supplied as an `Env`. */
module Downloader {
  import opened Common
  import opened Strings
  import opened Enums
  import opened Dates
  import opened Registry
  import opened ParticipantFilter
  import opened Retry
  import opened FileSystem
  import opened Worker

  /** What a run reads from the window: the program, the retry constants,
      the stripped study id, the download folder, the participant filter,
      the checked kinds of data and today's date. */
  datatype Settings = Settings(
    v: Variant, cfg: Config, studyId: string, folder: seq<string>,
    filterText: string, inclusive: bool, checked: set<DataType>, today: Date)

  /** The world outside one run: the answer to each request by its number
      in the run, the poll of the cancel flag just before which the user
      presses cancel (if ever), and the answer to the statistics request —
      the participant ids it lists, or what it raised. */
  datatype Env = Env(respond: nat -> Outcome, cancelAt: Option<nat>, stats: Result<seq<string>>)

  /** One download the loop starts: a participant and a kind of data. */
  datatype Task = Task(pid: string, kind: DataType)

  /** The user presses cancel before one of the polls numbered `from` to `to - 1`. */
  predicate CancelIn(env: Env, from: nat, to: nat) {
    env.cancelAt.Some? && from <= env.cancelAt.value < to
  }

  /** The `cancelled` signal the worker emits when the user presses cancel
      between those polls. */
  function CancelSignals(env: Env, from: nat, to: nat): (r: seq<Signal>)
    ensures ProgressValues(r) == []
  {
    if CancelIn(env, from, to) then [Cancelled] else []
  }

  lemma CancelCompose(env: Env, a: nat, b: nat, c: nat)
    requires a <= b <= c
    ensures CancelIn(env, a, c) <==> CancelIn(env, a, b) || CancelIn(env, b, c)
    ensures CancelSignals(env, a, b) + CancelSignals(env, b, c) == CancelSignals(env, a, c)
  {
  }

  // ----- The plan of a run -----

  /** The kinds in `ts` that are checked, in the order of `ts`. */
  function Checked(ts: seq<DataType>, checked: set<DataType>): (r: seq<DataType>)
    ensures |r| <= |ts|
    ensures forall t :: t in r <==> t in ts && t in checked
  {
    if |ts| == 0 then []
    else Checked(ts[..|ts| - 1], checked) + (if ts[|ts| - 1] in checked then [ts[|ts| - 1]] else [])
  }

  lemma CheckedStep(ts: seq<DataType>, j: nat, checked: set<DataType>)
    requires j < |ts|
    ensures Checked(ts[..j + 1], checked) == Checked(ts[..j], checked) + (if ts[j] in checked then [ts[j]] else [])
  {
    assert ts[..j + 1][..j] == ts[..j];
  }

  /** The kinds checked so far form a prefix of all the checked kinds. */
  lemma {:induction false} CheckedPrefix(ts: seq<DataType>, j: nat, checked: set<DataType>)
    requires j <= |ts|
    ensures Checked(ts[..j], checked) <= Checked(ts, checked)
    decreases |ts| - j
  {
    if j == |ts| {
      assert ts[..j] == ts;
    } else {
      CheckedStep(ts, j, checked);
      CheckedPrefix(ts, j + 1, checked);
    }
  }

  /** The kinds a run downloads for each participant, in loop order. */
  function CheckedOrder(v: Variant, checked: set<DataType>): (r: seq<DataType>)
    ensures forall t :: t in r <==> t in checked && Lookup(v, t).Ok?
  {
    Checked(DownloadOrder(v), checked)
  }

  /** The downloads of one participant. */
  function Row(pid: string, ts: seq<DataType>): (r: seq<Task>)
    ensures |r| == |ts|
    ensures forall k :: 0 <= k < |ts| ==> r[k] == Task(pid, ts[k])
  {
    seq(|ts|, k requires 0 <= k < |ts| => Task(pid, ts[k]))
  }

  lemma RowPrefix(pid: string, a: seq<DataType>, b: seq<DataType>)
    requires a <= b
    ensures Row(pid, a) <= Row(pid, b)
  {
  }

  /** The downloads of a run: each participant in turn, each of its kinds in turn. */
  function Plan(ids: seq<string>, ts: seq<DataType>): (r: seq<Task>)
    ensures |r| == |ids| * |ts|
  {
    if |ids| == 0 then []
    else
      var r := Plan(ids[..|ids| - 1], ts) + Row(ids[|ids| - 1], ts);
      assert |r| == (|ids| - 1) * |ts| + |ts| == |ids| * |ts|;
      r
  }

  lemma PlanStep(ids: seq<string>, i: nat, ts: seq<DataType>)
    requires i < |ids|
    ensures Plan(ids[..i + 1], ts) == Plan(ids[..i], ts) + Row(ids[i], ts)
  {
    assert ids[..i + 1][..i] == ids[..i];
  }

  lemma {:induction false} PlanPrefix(ids: seq<string>, i: nat, ts: seq<DataType>)
    requires i <= |ids|
    ensures Plan(ids[..i], ts) <= Plan(ids, ts)
    decreases |ids| - i
  {
    if i == |ids| {
      assert ids[..i] == ids;
    } else {
      PlanStep(ids, i, ts);
      PlanPrefix(ids, i + 1, ts);
    }
  }

  /** Download number `i * |ts| + j` of a run is kind `j` of participant `i`:
      participants in list order, kinds in loop order within each. */
  lemma {:induction false} PlanAt(ids: seq<string>, ts: seq<DataType>, i: nat, j: nat)
    requires i < |ids| && j < |ts|
    ensures i * |ts| + j < |Plan(ids, ts)|
    ensures Plan(ids, ts)[i * |ts| + j] == Task(ids[i], ts[j])
    decreases |ids|
  {
    var n := |ids| - 1;
    var init := ids[..n];
    var head := Plan(init, ts);
    assert Plan(ids, ts) == head + Row(ids[n], ts);
    assert |head| == n * |ts|;
    if i < n {
      PlanAt(init, ts, i, j);
      MulMonotone(i + 1, n, |ts|);
      assert (i + 1) * |ts| == i * |ts| + |ts|;
      assert Plan(ids, ts)[i * |ts| + j] == head[i * |ts| + j];
    } else {
      assert i * |ts| == |head|;
      assert Plan(ids, ts)[|head| + j] == Row(ids[n], ts)[j];
    }
  }

  // ----- Progress -----

  /** `10 + int(completed / total * 80)`, in exact arithmetic. */
  function Reported(completed: nat, total: nat): int {
    if total == 0 then 10 else 10 + completed * 80 / total
  }

  lemma MulMonotone(x: int, y: int, n: nat)
    requires x <= y
    ensures x * n <= y * n
  {
  }

  lemma DivMonotone(a: nat, b: nat, n: nat)
    requires a <= b && n > 0
    ensures a / n <= b / n
    ensures b == n * 80 ==> b / n == 80
  {
    var qa, qb := a / n, b / n;
    assert qa * n <= a;
    assert b < (qb + 1) * n;
    if qb + 1 <= qa {
      MulMonotone(qb + 1, qa, n);
    }
  }

  /** The reported value lies between 10 and 90 while no more downloads
      have completed than were counted. */
  lemma ReportedBounds(completed: nat, total: nat)
    requires completed <= total
    ensures 10 <= Reported(completed, total) <= 90
  {
    if total > 0 {
      MulMonotone(completed, total, 80);
      DivMonotone(completed * 80, total * 80, total);
    }
  }

  /** The reported value never falls as downloads complete. */
  lemma ReportedMonotone(c: nat, d: nat, total: nat)
    requires c <= d <= total
    ensures Reported(c, total) <= Reported(d, total)
  {
    if total > 0 {
      MulMonotone(c, d, 80);
      DivMonotone(c * 80, d * 80, total);
    }
  }

  /** No download done reports 10; all of them done reports 90. */
  lemma ReportedEnds(total: nat)
    ensures Reported(0, total) == 10
    ensures total > 0 ==> Reported(total, total) == 90
  {
    if total > 0 {
      DivMonotone(total * 80, total * 80, total);
    }
  }

  /** The progress values a download loop has reported: 10 first, each at
      least the one before, and the last one for `completed` of `total`
      downloads. */
  ghost predicate ProgressTrail(vals: seq<int>, completed: nat, total: nat) {
    && |vals| >= 1 && vals[0] == 10 && completed <= total
    && (forall i :: 0 < i < |vals| ==> vals[i - 1] <= vals[i])
    && (forall i :: 0 <= i < |vals| ==> 10 <= vals[i] <= 90)
    && vals[|vals| - 1] == Reported(completed, total)
  }

  /** A trail never falls: any value is at most every later one. */
  lemma {:induction false} TrailMonotone(vals: seq<int>, completed: nat, total: nat, i: int, j: int)
    requires ProgressTrail(vals, completed, total) && 0 <= i <= j < |vals|
    ensures vals[i] <= vals[j]
    decreases j - i
  {
    if i < j {
      TrailMonotone(vals, completed, total, i, j - 1);
    }
  }

  /** One more completed download extends the trail. */
  lemma ProgressStep(vals: seq<int>, completed: nat, total: nat)
    requires ProgressTrail(vals, completed, total) && completed < total
    ensures ProgressTrail(vals + [Reported(completed + 1, total)], completed + 1, total)
  {
    ReportedMonotone(completed, completed + 1, total);
    ReportedBounds(completed + 1, total);
  }


  // ----- What a run changes -----

  /** Everything a run changes besides the files: the worker's cancel flag,
      the signals it has emitted and its progress fields; the window's
      `download_active` flag and HTTP client; and, for the model, the URL of
      every request sent, the number of reads of the cancel flag and the
      downloads started, in order. */
  datatype World = World(
    cancelled: bool, signals: seq<Signal>, progress: int,
    completedDownloads: Option<nat>, totalDownloads: Option<nat>,
    active: bool, clientOpen: bool, clientsCreated: nat,
    requests: seq<string>, polls: nat, issued: seq<Task>)

  /** A read of the cancel flag; a press of cancel due just before it lands first. */
  function Polled(env: Env, st: World): (r: World)
    ensures r.polls == st.polls + 1
    ensures r.cancelled == (st.cancelled || CancelIn(env, st.polls, r.polls))
    ensures r.signals == st.signals + CancelSignals(env, st.polls, r.polls)
  {
    var press := env.cancelAt == Some(st.polls);
    st.(cancelled := st.cancelled || press, signals := st.signals + (if press then [Cancelled] else []),
        polls := st.polls + 1)
  }

  /** The signals `update_progress(value, completed, total)` emits. */
  function Emitted(value: int, completed: Option<nat>, total: Option<nat>): (r: seq<Signal>)
    ensures ProgressValues(r) == [value]
  {
    if completed.Some? && total.Some? then
      var r := [Progress(value), ProgressText(ProgressMessage(value, completed.value, total.value))];
      assert r[..1] == [Progress(value)];
      r
    else [Progress(value)]
  }

  /** `update_progress(value, completed, total)`: the value is stored and
      reported, and both counts are stored when both are given. */
  function Updated(st: World, value: int, completed: Option<nat>, total: Option<nat>): (r: World)
    ensures ProgressValues(r.signals) == ProgressValues(st.signals) + [value]
  {
    var counted := completed.Some? && total.Some?;
    ProgressValuesAppend(st.signals, Emitted(value, completed, total));
    st.(progress := value, signals := st.signals + Emitted(value, completed, total),
        completedDownloads := if counted then completed else st.completedDownloads,
        totalDownloads := if counted then total else st.totalDownloads)
  }

  /** `_get_client`: a client is created only when there is none open. */
  function WithClient(st: World): World {
    st.(clientOpen := true, clientsCreated := st.clientsCreated + (if st.clientOpen then 0 else 1))
  }

  /** `_close_client`. */
  function WithoutClient(st: World): World {
    st.(clientOpen := false)
  }

  /** Between `st` and `st'` only reads of the cancel flag and the requests
      of downloads happened: the flag and the signals changed only by the
      user's press of cancel, and the progress fields are as they were. */
  predicate Between(env: Env, st: World, st': World) {
    && st.polls <= st'.polls
    && st'.cancelled == (st.cancelled || CancelIn(env, st.polls, st'.polls))
    && st'.signals == st.signals + CancelSignals(env, st.polls, st'.polls)
    && st'.progress == st.progress
    && st'.completedDownloads == st.completedDownloads && st'.totalDownloads == st.totalDownloads
    && st'.active == st.active && st'.issued == st.issued
  }

  lemma BetweenCompose(env: Env, a: World, b: World, c: World)
    requires Between(env, a, b) && Between(env, b, c)
    ensures Between(env, a, c)
  {
    CancelCompose(env, a.polls, b.polls, c.polls);
  }

  // ----- One download -----

  /** Saving a response: `mkdir(parents=True, exist_ok=True)` of the folder,
      then writing the body to the file. */
  function Save(fs: Fs, folder: seq<string>, name: string, size: nat): (r: Result<Fs>)
    ensures r.Ok? ==> r.value.files == fs.files[FilePath(folder, name) := size] && folder in r.value.dirs
    ensures r.Ok? ==> fs.dirs <= r.value.dirs && r.value.locked == fs.locked
  {
    match MakeDirs(fs, folder)
    case Err(f) => Err(f)
    case Ok(made) => Write(made, FilePath(folder, name), size)
  }

  /** The folder after a failed save: the `mkdir` stays done when it worked. */
  function AfterMkdir(fs: Fs, folder: seq<string>): (r: Fs)
    ensures r.files == fs.files
  {
    match MakeDirs(fs, folder)
    case Ok(made) => made
    case Err(_) => fs
  }

  /** The request URL of a download. */
  function DataUrl(s: Settings, pid: string, t: DataType, e: Registry.Entry): string {
    Url(s.studyId, pid, t, e.family)
  }

  /** Where a download of `t` for `pid` is saved. */
  function Target(s: Settings, pid: string, t: DataType): FilePath
    requires IsValid(s.today) && Lookup(s.v, t).Ok?
  {
    FilePath(s.folder, FileName(s.v, pid, Lookup(s.v, t).value, s.today))
  }

  /** What one pass of the download routine came to before the answer was examined. */
  datatype Stage =
    | Stopped                                           // the cancel flag was seen
    | NoEntry                                           // the registry has no case for the kind
    | Answered(entry: Registry.Entry, outcome: Outcome) // a request was sent and answered

  datatype Attempted = Attempted(step: Stage, st: World)

  /** One pass through the routine up to the answer: the cancel check on
      entry, the registry `match`, the cancel check once the request slot is
      held, the client, and the request, numbered by the requests before it. */
  function AttemptFrom(s: Settings, env: Env, pid: string, t: DataType, st: World): (a: Attempted)
  {
    var st1 := Polled(env, st);
    if st1.cancelled then Attempted(Stopped, st1)
    else match Lookup(s.v, t)
      case Err(_) => Attempted(NoEntry, st1)
      case Ok(e) =>
        var st2 := Polled(env, st1);
        if st2.cancelled then Attempted(Stopped, st2)
        else
          var sent := WithClient(st2).(requests := st2.requests + [DataUrl(s, pid, t, e)]);
          Attempted(Answered(e, env.respond(|st2.requests|)), sent)
  }

  /** What a download returned, the files after it and the state after it. */
  datatype Downloaded = Downloaded(result: Result<bool>, fs: Fs, st: World)

  /** The pass that ends a download, and the retry count it was made at. */
  datatype Ended = Ended(last: Attempted, retryCount: nat)

  /** The state a retried request hands to the next call: the client is
      dropped after a transport failure. */
  function Retried(a: Attempted, close: bool): World {
    if close then WithoutClient(a.st) else a.st
  }

  /** The retries a download from retry `retryCount` has left. */
  function RetriesLeft(s: Settings, retryCount: nat): nat {
    if retryCount <= s.cfg.maxRetries then s.cfg.maxRetries - retryCount + 1 else 0
  }

  /** The passes of `_download_participant_Chronicle_data_type` from retry
      `retryCount`: a pass whose answer the retry rule accepts for a retry
      calls the routine again; the first pass that is not retried ends it. */
  function RetryFrom(s: Settings, env: Env, pid: string, t: DataType, retryCount: nat, st: World): (r: Ended)
    ensures r.last.step.Answered? ==> !Decide(r.last.step.outcome, r.retryCount, s.cfg).Again?
    decreases RetriesLeft(s, retryCount)
  {
    var a := AttemptFrom(s, env, pid, t, st);
    if a.step.Answered? && Decide(a.step.outcome, retryCount, s.cfg).Again? then
      RetryFrom(s, env, pid, t, retryCount + 1, Retried(a, Decide(a.step.outcome, retryCount, s.cfg).closeClient))
    else Ended(a, retryCount)
  }

  /** `_download_participant_Chronicle_data_type` from retry `retryCount`:
      `Ok(false)` when the cancel flag is seen, `Ok(true)` once a response is
      saved, and `Err` for what it raises. The files change only in the
      pass that ends the routine. */
  function DownloadFrom(s: Settings, env: Env, pid: string, t: DataType, fs: Fs, retryCount: nat, st: World): (d: Downloaded)
    requires IsValid(s.today)
  {
    Finish(s, pid, t, fs, RetryFrom(s, env, pid, t, retryCount, st))
  }

  /** What the last pass leaves: `False` when stopped, the unknown-kind error,
      the file saved after a final success, or the final failure raised. The
      state is the one the last pass left. */
  function Finish(s: Settings, pid: string, t: DataType, fs: Fs, end: Ended): (d: Downloaded)
    requires IsValid(s.today)
    requires end.last.step.Answered? ==> !Decide(end.last.step.outcome, end.retryCount, s.cfg).Again?
    ensures d.st == end.last.st
    ensures d.result == Ok(false) <==> end.last.step.Stopped?
  {
    var a := end.last;
    match a.step
    case Stopped => Downloaded(Ok(false), fs, a.st)
    case NoEntry => Downloaded(Err(UnknownDataType), fs, a.st)
    case Answered(e, o) =>
      var decision := Decide(o, end.retryCount, s.cfg);
      if decision.Done? then
        (match Save(fs, s.folder, FileName(s.v, pid, e, s.today), o.size)
         case Ok(saved) => Downloaded(Ok(true), saved, a.st)
         case Err(f) => Downloaded(Err(f), AfterMkdir(fs, s.folder), a.st))
      else Downloaded(Err(decision.failure), fs, a.st)
  }

  /** A retried pass hands the download on to the next call unchanged. */
  lemma DownloadAgain(s: Settings, env: Env, pid: string, t: DataType, fs: Fs, retryCount: nat, st: World)
    requires IsValid(s.today)
    ensures var a := AttemptFrom(s, env, pid, t, st);
      a.step.Answered? && Decide(a.step.outcome, retryCount, s.cfg).Again? ==>
        DownloadFrom(s, env, pid, t, fs, retryCount, st)
          == DownloadFrom(s, env, pid, t, fs, retryCount + 1, Retried(a, Decide(a.step.outcome, retryCount, s.cfg).closeClient))
  {
  }

  /** A pass that is not retried ends the download. */
  lemma RetryEnds(s: Settings, env: Env, pid: string, t: DataType, retryCount: nat, st: World)
    ensures var a := AttemptFrom(s, env, pid, t, st);
      !(a.step.Answered? && Decide(a.step.outcome, retryCount, s.cfg).Again?) ==>
        RetryFrom(s, env, pid, t, retryCount, st) == Ended(a, retryCount)
  {
  }

  /** The entry pass of a download: it reads the flag once or twice, sends at
      most one request, and sends none when the flag is set on entry. */
  lemma AttemptEffect(s: Settings, env: Env, pid: string, t: DataType, st: World)
    ensures var a := AttemptFrom(s, env, pid, t, st);
      && Between(env, st, a.st)
      && (a.step.Stopped? <==> a.st.cancelled)
      && (a.step.NoEntry? <==> !a.st.cancelled && Lookup(s.v, t).Err?)
      && (!a.step.Answered? ==>
            a.st.requests == st.requests && a.st.clientOpen == st.clientOpen && a.st.clientsCreated == st.clientsCreated)
      && (st.cancelled ==> a.step.Stopped?)
      && (a.step.Answered? ==>
            && Lookup(s.v, t) == Ok(a.step.entry) && a.step.outcome == env.respond(|st.requests|)
            && a.st.requests == st.requests + [DataUrl(s, pid, t, a.step.entry)]
            && a.st.clientOpen && a.st.clientsCreated == st.clientsCreated + (if st.clientOpen then 0 else 1))
  {
    var st1 := Polled(env, st);
    if !st1.cancelled && Lookup(s.v, t).Ok? {
      CancelCompose(env, st.polls, st1.polls, st1.polls + 1);
    }
  }

  /** The passes of a download only read the flag and send requests; the
      last one saw the flag exactly when it stopped; one whose flag was
      already set sends nothing. */
  lemma {:induction false} RetryEffect(s: Settings, env: Env, pid: string, t: DataType, retryCount: nat, st: World)
    ensures var a := RetryFrom(s, env, pid, t, retryCount, st).last;
      && Between(env, st, a.st)
      && (a.step.Stopped? <==> a.st.cancelled)
      && (a.step.NoEntry? ==> Lookup(s.v, t).Err?)
      && (a.step.Answered? ==> Lookup(s.v, t) == Ok(a.step.entry))
      && (st.cancelled ==> a.step.Stopped? && a.st.requests == st.requests)
    decreases RetriesLeft(s, retryCount)
  {
    var a := AttemptFrom(s, env, pid, t, st);
    AttemptEffect(s, env, pid, t, st);
    if a.step.Answered? && Decide(a.step.outcome, retryCount, s.cfg).Again? {
      var st' := Retried(a, Decide(a.step.outcome, retryCount, s.cfg).closeClient);
      assert RetryFrom(s, env, pid, t, retryCount, st) == RetryFrom(s, env, pid, t, retryCount + 1, st');
      RetryEffect(s, env, pid, t, retryCount + 1, st');
      BetweenCompose(env, st, st', RetryFrom(s, env, pid, t, retryCount + 1, st').last.st);
    } else {
      RetryEnds(s, env, pid, t, retryCount, st);
    }
  }

  /** A download's bookkeeping: it reads the flag and changes the flag and the
      signals only by the user's press of cancel; it reports `False` exactly
      when the flag is set at its end; one whose flag was already set sends
      nothing; a saved download has its file, and files are never removed. */
  lemma DownloadEffect(s: Settings, env: Env, pid: string, t: DataType, fs: Fs, retryCount: nat, st: World)
    requires IsValid(s.today)
    ensures var d := DownloadFrom(s, env, pid, t, fs, retryCount, st);
      && Between(env, st, d.st)
      && (d.result == Ok(false) <==> d.st.cancelled)
      && (d.result == Ok(false) ==> d.fs == fs)
      && (st.cancelled ==> d.result == Ok(false) && d.st.requests == st.requests)
      && (d.result == Ok(true) ==> Lookup(s.v, t).Ok? && Target(s, pid, t) in d.fs.files)
      && (d.result.Err? ==> d.fs.files == fs.files)
      && fs.files.Keys <= d.fs.files.Keys
  {
    RetryEffect(s, env, pid, t, retryCount, st);
  }

  /** The passes of a download nobody cancelled, of a kind the registry
      knows, end with an answer, and the retry rule run over the answers to
      its own requests comes to the same result. */
  lemma {:induction false} RetryRun(s: Settings, env: Env, pid: string, t: DataType, retryCount: nat, st: World)
    requires Lookup(s.v, t).Ok?
    ensures var end := RetryFrom(s, env, pid, t, retryCount, st);
      var run := RunFrom(env.respond, |st.requests|, retryCount, s.cfg);
      !end.last.st.cancelled ==>
        && end.last.step.Answered?
        && (run.result.Ok? <==> end.last.step.outcome.Success?)
        && (run.result.Ok? ==> run.result.value == end.last.step.outcome.size)
        && (run.result.Err? ==> run.result.failure == Decide(end.last.step.outcome, end.retryCount, s.cfg).failure)
    decreases RetriesLeft(s, retryCount)
  {
    var a := AttemptFrom(s, env, pid, t, st);
    AttemptEffect(s, env, pid, t, st);
    if a.step.Answered? {
      if Decide(a.step.outcome, retryCount, s.cfg).Again? {
        var st' := Retried(a, Decide(a.step.outcome, retryCount, s.cfg).closeClient);
        assert |st'.requests| == |st.requests| + 1;
        RunAgain(env.respond, |st.requests|, retryCount, s.cfg);
        assert RetryFrom(s, env, pid, t, retryCount, st) == RetryFrom(s, env, pid, t, retryCount + 1, st');
        RetryRun(s, env, pid, t, retryCount + 1, st');
      } else {
        RetryEnds(s, env, pid, t, retryCount, st);
        RunEnds(env.respond, |st.requests|, retryCount, s.cfg);
      }
    }
  }

  /** A download nobody cancelled, of a kind the registry knows, whose
      first request has number `first`, ends as the retry rule says: a final
      failure is raised, and a final success is saved. */
  ghost predicate RetriedAs(s: Settings, env: Env, pid: string, t: DataType, fs: Fs, first: nat, retryCount: nat,
                            r: Result<bool>, fs': Fs)
    requires IsValid(s.today) && Lookup(s.v, t).Ok?
  {
    var run := RunFrom(env.respond, first, retryCount, s.cfg);
    var e := Lookup(s.v, t).value;
    && (run.result.Err? ==> r == Err(run.result.failure) && fs' == fs)
    && (run.result.Ok? ==>
          var saved := Save(fs, s.folder, FileName(s.v, pid, e, s.today), run.result.value);
          && (saved.Ok? ==> r == Ok(true) && fs' == saved.value)
          && (saved.Err? ==> r == Err(saved.failure) && fs' == AfterMkdir(fs, s.folder)))
  }

  /** A download nobody cancelled ends as the retry rule says on the answers
      to its own requests; a kind without a registry case raises before any
      request. */
  lemma DownloadResult(s: Settings, env: Env, pid: string, t: DataType, fs: Fs, retryCount: nat, st: World)
    requires IsValid(s.today)
    ensures var d := DownloadFrom(s, env, pid, t, fs, retryCount, st);
      && (!d.st.cancelled && Lookup(s.v, t).Err? ==> d.result == Err(UnknownDataType) && d.st.requests == st.requests)
      && (!d.st.cancelled && Lookup(s.v, t).Ok? ==> RetriedAs(s, env, pid, t, fs, |st.requests|, retryCount, d.result, d.fs))
  {
    AttemptEffect(s, env, pid, t, st);
    RetryEffect(s, env, pid, t, retryCount, st);
    if Lookup(s.v, t).Ok? {
      RetryRun(s, env, pid, t, retryCount, st);
    }
  }

  /** `n` copies of `x`. */
  function Repeat(x: string, n: nat): (r: seq<string>)
    ensures |r| == n && forall k :: 0 <= k < n ==> r[k] == x
  {
    seq(n, _ => x)
  }

  lemma LogGrows(log: seq<string>, x: string, n: nat)
    ensures (log + [x]) + Repeat(x, n) == log + Repeat(x, n + 1)
  {
    assert forall k :: 0 <= k < |log| + n + 1 ==> ((log + [x]) + Repeat(x, n))[k] == (log + Repeat(x, n + 1))[k];
  }

  /** Every request of a download nobody cancelled, whose passes ended as
      `end`, asks for the same URL, one more per retry of the retry rule run
      over the answers to its requests. */
  ghost predicate SentAs(s: Settings, env: Env, pid: string, t: DataType, retryCount: nat, st: World, end: Ended)
    requires Lookup(s.v, t).Ok?
  {
    var run := RunFrom(env.respond, |st.requests|, retryCount, s.cfg);
    !end.last.st.cancelled ==>
      end.last.st.requests == st.requests + Repeat(DataUrl(s, pid, t, Lookup(s.v, t).value), run.attempts)
  }

  lemma {:induction false} RetryRequests(s: Settings, env: Env, pid: string, t: DataType, retryCount: nat, st: World)
    requires Lookup(s.v, t).Ok?
    ensures SentAs(s, env, pid, t, retryCount, st, RetryFrom(s, env, pid, t, retryCount, st))
    decreases RetriesLeft(s, retryCount)
  {
    var a := AttemptFrom(s, env, pid, t, st);
    AttemptEffect(s, env, pid, t, st);
    if a.step.Answered? && Decide(a.step.outcome, retryCount, s.cfg).Again? {
      var st' := Retried(a, Decide(a.step.outcome, retryCount, s.cfg).closeClient);
      assert RetryFrom(s, env, pid, t, retryCount, st) == RetryFrom(s, env, pid, t, retryCount + 1, st');
      RetryRequests(s, env, pid, t, retryCount + 1, st');
      SentAgain(s, env, pid, t, retryCount, st, st', RetryFrom(s, env, pid, t, retryCount + 1, st'));
    } else {
      RetryEnds(s, env, pid, t, retryCount, st);
      if a.step.Answered? {
        RunEnds(env.respond, |st.requests|, retryCount, s.cfg);
      }
    }
  }

  /** A retried pass adds its one request in front of the rest. */
  lemma SentAgain(s: Settings, env: Env, pid: string, t: DataType, retryCount: nat, st: World, st': World, end: Ended)
    requires Lookup(s.v, t).Ok? && Decide(env.respond(|st.requests|), retryCount, s.cfg).Again?
    requires st'.requests == st.requests + [DataUrl(s, pid, t, Lookup(s.v, t).value)]
    requires SentAs(s, env, pid, t, retryCount + 1, st', end)
    ensures SentAs(s, env, pid, t, retryCount, st, end)
  {
    RunAgain(env.respond, |st.requests|, retryCount, s.cfg);
    LogGrows(st.requests, DataUrl(s, pid, t, Lookup(s.v, t).value),
             RunFrom(env.respond, |st.requests| + 1, retryCount + 1, s.cfg).attempts);
  }

  /** A download nobody cancelled leaves a client open, having created one
      only when none was open and once more per transport failure retried. */
  lemma {:induction false} RetryClients(s: Settings, env: Env, pid: string, t: DataType, retryCount: nat, st: World)
    requires Lookup(s.v, t).Ok?
    ensures var a := RetryFrom(s, env, pid, t, retryCount, st).last;
      var run := RunFrom(env.respond, |st.requests|, retryCount, s.cfg);
      !a.st.cancelled ==>
        && a.st.clientOpen
        && a.st.clientsCreated == st.clientsCreated + (if st.clientOpen then 0 else 1) + run.closes
    decreases RetriesLeft(s, retryCount)
  {
    var a := AttemptFrom(s, env, pid, t, st);
    AttemptEffect(s, env, pid, t, st);
    if a.step.Answered? {
      if Decide(a.step.outcome, retryCount, s.cfg).Again? {
        var st' := Retried(a, Decide(a.step.outcome, retryCount, s.cfg).closeClient);
        assert |st'.requests| == |st.requests| + 1;
        RunAgain(env.respond, |st.requests|, retryCount, s.cfg);
        assert RetryFrom(s, env, pid, t, retryCount, st) == RetryFrom(s, env, pid, t, retryCount + 1, st');
        RetryClients(s, env, pid, t, retryCount + 1, st');
      } else {
        RetryEnds(s, env, pid, t, retryCount, st);
        RunEnds(env.respond, |st.requests|, retryCount, s.cfg);
      }
    }
  }

  /** The requests and clients of a whole download nobody cancelled. */
  lemma DownloadRequests(s: Settings, env: Env, pid: string, t: DataType, fs: Fs, retryCount: nat, st: World)
    requires IsValid(s.today) && Lookup(s.v, t).Ok?
    ensures var d := DownloadFrom(s, env, pid, t, fs, retryCount, st);
      var run := RunFrom(env.respond, |st.requests|, retryCount, s.cfg);
      !d.st.cancelled ==>
        && d.st.requests == st.requests + Repeat(DataUrl(s, pid, t, Lookup(s.v, t).value), run.attempts)
        && d.st.clientOpen
        && d.st.clientsCreated == st.clientsCreated + (if st.clientOpen then 0 else 1) + run.closes
  {
    RetryRequests(s, env, pid, t, retryCount, st);
    RetryClients(s, env, pid, t, retryCount, st);
  }

  // ----- The loop over participants and kinds -----

  /** How the loop stands: still going, left by `break` on the cancel flag,
      or unwound by an exception. */
  datatype Halt = Going | Broke | Raised(failure: Failure)

  /** The loop's state: how it stands, `downloads_completed`, the files and the rest. */
  datatype Pass = Pass(halt: Halt, completed: nat, fs: Fs, st: World)

  /** One kind for one participant: downloaded when its box is checked, and
      counted with a progress update when that download returns `True`. */
  function KindStep(s: Settings, env: Env, pid: string, t: DataType, total: nat, p: Pass): Pass
    requires IsValid(s.today)
  {
    if t !in s.checked then p
    else Counted(DownloadFrom(s, env, pid, t, p.fs, 0, p.st.(issued := p.st.issued + [Task(pid, t)])), p.completed, total)
  }

  /** The loop after a download `d` that started with `completed` downloads
      counted: an exception leaves the loop; `True` counts one more download
      and reports the progress for it. */
  function Counted(d: Downloaded, completed: nat, total: nat): Pass {
    match d.result
    case Err(f) => Pass(Raised(f), completed, d.fs, d.st)
    case Ok(saved) =>
      if saved then
        var c := completed + 1;
        Pass(Going, c, d.fs, Updated(d.st, Reported(c, total), Some(c), Some(total)))
      else Pass(Going, completed, d.fs, d.st)
  }

  /** After a kind: the read of the cancel flag, unless that kind was the
      last or the loop stopped. */
  function AfterKind(env: Env, last: bool, q: Pass): Pass {
    if q.halt.Going? && !last then
      var st := Polled(env, q.st);
      Pass(if st.cancelled then Broke else Going, q.completed, q.fs, st)
    else q
  }

  /** One kind of `order[j]` and the read of the cancel flag after it. */
  function KindNext(s: Settings, env: Env, pid: string, order: seq<DataType>, j: nat, total: nat, p: Pass): Pass
    requires IsValid(s.today) && j < |order|
  {
    AfterKind(env, j + 1 == |order|, KindStep(s, env, pid, order[j], total, p))
  }

  /** The kinds `order[j..]` for one participant, with a read of the cancel
      flag after each kind but the last. */
  function KindsFrom(s: Settings, env: Env, pid: string, order: seq<DataType>, j: nat, total: nat, p: Pass): Pass
    requires IsValid(s.today)
    decreases |order| - j
  {
    if j >= |order| || !p.halt.Going? then p
    else KindsFrom(s, env, pid, order, j + 1, total, KindNext(s, env, pid, order, j, total, p))
  }

  /** The participants `ids[i..]`, each after a read of the cancel flag, each
      through every kind of the program in loop order. */
  function ParticipantsFrom(s: Settings, env: Env, ids: seq<string>, i: nat, total: nat, p: Pass): Pass
    requires IsValid(s.today)
    decreases |ids| - i
  {
    if i >= |ids| || !p.halt.Going? then p
    else ParticipantsFrom(s, env, ids, i + 1, total, ParticipantNext(s, env, ids[i], total, p))
  }

  /** One participant: the read of the cancel flag, which leaves the loop
      when it is set, then every kind of the program in loop order. */
  function ParticipantNext(s: Settings, env: Env, pid: string, total: nat, p: Pass): Pass
    requires IsValid(s.today)
  {
    var st := Polled(env, p.st);
    if st.cancelled then p.(halt := Broke, st := st)
    else KindsFrom(s, env, pid, DownloadOrder(s.v), 0, total, p.(st := st))
  }

  /** The downloads a run over `ids` plans: every checked kind of the
      program, for each participant in turn. */
  function Planned(s: Settings, ids: seq<string>): (r: seq<Task>)
    ensures |r| == |ids| * |CheckedOrder(s.v, s.checked)|
  {
    Plan(ids, CheckedOrder(s.v, s.checked))
  }

  /** The run over a non-empty filtered list `ids`: the progress starts at
      10 with none of the planned downloads done, then the loop runs. */
  function LoopFrom(s: Settings, env: Env, ids: seq<string>, fs: Fs, st: World): Pass
    requires IsValid(s.today)
  {
    var total := |Planned(s, ids)|;
    ParticipantsFrom(s, env, ids, 0, total, Pass(Going, 0, fs, Updated(st, 10, Some(0), Some(total))))
  }

  /** The state before the statistics request is answered: the run marked
      active, a client open and the request sent. */
  function Opened(s: Settings, st: World): (r: World)
    ensures r.active && r.clientOpen && r.requests == st.requests + [StatsUrl(s.studyId)]
    ensures r.issued == st.issued && r.signals == st.signals && r.cancelled == st.cancelled
  {
    WithClient(st.(active := true)).(requests := st.requests + [StatsUrl(s.studyId)])
  }

  /** `download_participant_Chronicle_data_from_study`: the run is marked
      active, the statistics request lists the participants, the filtered
      list must not be empty, the loop runs, and on every exit the client is
      closed and the run marked inactive. */
  function StudyFrom(s: Settings, env: Env, fs: Fs, st: World): (q: Pass)
    requires IsValid(s.today)
  {
    var st1 := Opened(s, st);
    var p :=
      if env.stats.Err? then Pass(Raised(env.stats.failure), 0, fs, st1)
      else if Filter(env.stats.value, s.filterText, s.inclusive) == [] then Pass(Raised(NoParticipants), 0, fs, st1)
      else LoopFrom(s, env, Filter(env.stats.value, s.filterText, s.inclusive), fs, st1);
    p.(st := WithoutClient(p.st).(active := false))
  }

  // ----- What the loop keeps -----

  /** Every download of `tasks` has its file in `fs`. */
  ghost predicate Saved(s: Settings, tasks: seq<Task>, fs: Fs)
    requires IsValid(s.today)
  {
    forall k :: 0 <= k < |tasks| ==> Lookup(s.v, tasks[k].kind).Ok? && Target(s, tasks[k].pid, tasks[k].kind) in fs.files
  }

  /** The downloads started since `base`. */
  function Done(base: World, st: World): seq<Task>
    requires base.issued <= st.issued
  {
    st.issued[|base.issued|..]
  }

  /** The progress values reported since `base`. */
  function Reports(base: World, st: World): seq<int>
    requires |ProgressValues(base.signals)| <= |ProgressValues(st.signals)|
  {
    ProgressValues(st.signals)[|ProgressValues(base.signals)|..]
  }

  /** What holds of the loop at every point, counted from the state `base`
      just before the first progress update of a run that plans `plan`: the
      downloads started are a prefix of the plan; the completed count is at
      most their number, and equal to it with every file saved while nobody
      has cancelled and nothing has failed; a `break` happens only on the
      flag; the progress values reported start at 10, never fall, stay
      within [10, 90] and end with the value for the completed count. */
  ghost predicate Tracked(s: Settings, base: World, plan: seq<Task>, p: Pass)
    requires IsValid(s.today)
  {
    TasksTracked(s, base, plan, p) && ReportsTracked(base, plan, p)
  }

  /** The downloads part of the invariant. */
  ghost predicate TasksTracked(s: Settings, base: World, plan: seq<Task>, p: Pass)
    requires IsValid(s.today)
  {
    && base.issued <= p.st.issued
    && Done(base, p.st) <= plan
    && p.completed <= |Done(base, p.st)|
    && (p.halt.Broke? ==> p.st.cancelled)
    && (p.halt.Going? && !p.st.cancelled ==> p.completed == |Done(base, p.st)| && Saved(s, Done(base, p.st), p.fs))
  }

  /** The progress part of the invariant. */
  ghost predicate ReportsTracked(base: World, plan: seq<Task>, p: Pass) {
    && |ProgressValues(base.signals)| < |ProgressValues(p.st.signals)|
    && ProgressValues(p.st.signals)[..|ProgressValues(base.signals)|] == ProgressValues(base.signals)
    && ProgressTrail(Reports(base, p.st), p.completed, |plan|)
    && p.st.totalDownloads == Some(|plan|)
  }

  /** Reads of the cancel flag add no progress value. */
  lemma PolledKeepsProgress(env: Env, st: World)
    ensures ProgressValues(Polled(env, st).signals) == ProgressValues(st.signals)
  {
    ProgressValuesAppend(st.signals, CancelSignals(env, st.polls, st.polls + 1));
  }

  /** The loop's first state: progress 10, none of the plan done. */
  lemma StartTracked(s: Settings, plan: seq<Task>, fs: Fs, st: World)
    requires IsValid(s.today)
    ensures Tracked(s, st, plan, Pass(Going, 0, fs, Updated(st, 10, Some(0), Some(|plan|))))
  {
    var st' := Updated(st, 10, Some(0), Some(|plan|));
    assert st'.issued == st.issued && st'.totalDownloads == Some(|plan|);
    StartFrom(s, plan, fs, st, st');
  }

  /** The same, for any state that only adds the report 10 to `st`. */
  lemma StartFrom(s: Settings, plan: seq<Task>, fs: Fs, st: World, st': World)
    requires IsValid(s.today)
    requires st'.issued == st.issued && st'.totalDownloads == Some(|plan|)
    requires ProgressValues(st'.signals) == ProgressValues(st.signals) + [10]
    ensures Tracked(s, st, plan, Pass(Going, 0, fs, st'))
  {
    var v := ProgressValues(st.signals);
    assert Done(st, st') == [];
    assert (v + [10])[..|v|] == v;
    assert Reports(st, st') == [10];
    StartTrail(Reports(st, st'), |plan|);
  }

  /** The single report 10 is a trail for no completed download. */
  lemma StartTrail(vals: seq<int>, total: nat)
    requires vals == [10]
    ensures ProgressTrail(vals, 0, total)
  {
    ReportedEnds(total);
  }

  /** A read of the cancel flag keeps the invariant; a `break` follows it
      only when the flag is set. */
  lemma PollTracked(s: Settings, env: Env, base: World, plan: seq<Task>, p: Pass)
    requires IsValid(s.today) && Tracked(s, base, plan, p) && p.halt.Going?
    ensures var st := Polled(env, p.st);
      var q := Pass(if st.cancelled then Broke else Going, p.completed, p.fs, st);
      Tracked(s, base, plan, q) && Done(base, q.st) == Done(base, p.st)
  {
    PolledKeepsProgress(env, p.st);
  }

  /** The read after a kind keeps the invariant and starts no download. */
  lemma AfterKindTracked(s: Settings, env: Env, last: bool, base: World, plan: seq<Task>, q: Pass)
    requires IsValid(s.today) && Tracked(s, base, plan, q)
    ensures Tracked(s, base, plan, AfterKind(env, last, q))
    ensures base.issued <= AfterKind(env, last, q).st.issued && Done(base, AfterKind(env, last, q).st) == Done(base, q.st)
  {
    if q.halt.Going? && !last {
      PollTracked(s, env, base, plan, q);
    }
  }

  /** The slice of the log after `base` grows with the log. */
  lemma DoneGrows(base: seq<Task>, log: seq<Task>, x: Task)
    requires base <= log
    ensures (log + [x])[|base|..] == log[|base|..] + [x]
  {
  }

  /** What a download `x` started from the loop state `p` leaves: `x` is
      logged, no progress value is added, the flag is never cleared and no
      file is removed. */
  ghost predicate DownloadedAfter(p: Pass, x: Task, fs: Fs, st: World) {
    && st.issued == p.st.issued + [x]
    && ProgressValues(st.signals) == ProgressValues(p.st.signals)
    && st.totalDownloads == p.st.totalDownloads
    && (p.st.cancelled ==> st.cancelled)
    && p.fs.files.Keys <= fs.files.Keys
  }

  /** A download that raised keeps the invariant. */
  lemma RaisedTracked(s: Settings, base: World, plan: seq<Task>, p: Pass, x: Task, fs: Fs, st: World, f: Failure)
    requires IsValid(s.today) && Tracked(s, base, plan, p) && DownloadedAfter(p, x, fs, st)
    requires Done(base, p.st) + [x] <= plan
    ensures Tracked(s, base, plan, Pass(Raised(f), p.completed, fs, st))
    ensures Done(base, st) == Done(base, p.st) + [x]
  {
    DoneGrows(base.issued, p.st.issued, x);
  }

  /** A download that saw the flag keeps the invariant. */
  lemma SkippedTracked(s: Settings, base: World, plan: seq<Task>, p: Pass, x: Task, fs: Fs, st: World)
    requires IsValid(s.today) && Tracked(s, base, plan, p) && DownloadedAfter(p, x, fs, st) && st.cancelled
    requires Done(base, p.st) + [x] <= plan
    ensures Tracked(s, base, plan, Pass(p.halt, p.completed, fs, st))
    ensures Done(base, st) == Done(base, p.st) + [x]
  {
    DoneGrows(base.issued, p.st.issued, x);
  }

  /** Saved files stay saved when no file is removed, and a new one joins them. */
  lemma SavedGrows(s: Settings, done: seq<Task>, x: Task, fs: Fs, fs': Fs)
    requires IsValid(s.today) && Saved(s, done, fs) && fs.files.Keys <= fs'.files.Keys
    requires Lookup(s.v, x.kind).Ok? && Target(s, x.pid, x.kind) in fs'.files
    ensures Saved(s, done + [x], fs')
  {
    forall k | 0 <= k < |done + [x]|
      ensures Lookup(s.v, (done + [x])[k].kind).Ok? && Target(s, (done + [x])[k].pid, (done + [x])[k].kind) in fs'.files
    {
      if k < |done| {
        assert (done + [x])[k] == done[k];
      }
    }
  }

  /** A counted download's progress value extends the trail. */
  lemma CountedReports(base: World, plan: seq<Task>, p: Pass, q: Pass)
    requires ReportsTracked(base, plan, p) && p.completed < |plan|
    requires q.completed == p.completed + 1 && q.st.totalDownloads == Some(|plan|)
    requires ProgressValues(q.st.signals) == ProgressValues(p.st.signals) + [Reported(q.completed, |plan|)]
    ensures ReportsTracked(base, plan, q)
  {
    var vs := ProgressValues(p.st.signals);
    var b := |ProgressValues(base.signals)|;
    assert (vs + [Reported(q.completed, |plan|)])[..b] == vs[..b];
    assert Reports(base, q.st) == Reports(base, p.st) + [Reported(q.completed, |plan|)];
    ProgressStep(Reports(base, p.st), p.completed, |plan|);
  }

  /** A saved download, counted and reported, keeps the invariant. */
  lemma CountedTracked(s: Settings, base: World, plan: seq<Task>, p: Pass, x: Task, fs: Fs, st: World)
    requires IsValid(s.today) && Tracked(s, base, plan, p) && DownloadedAfter(p, x, fs, st) && p.halt.Going?
    requires Done(base, p.st) + [x] <= plan
    requires Lookup(s.v, x.kind).Ok? && Target(s, x.pid, x.kind) in fs.files
    ensures var c := p.completed + 1;
      Tracked(s, base, plan, Pass(Going, c, fs, Updated(st, Reported(c, |plan|), Some(c), Some(|plan|))))
    ensures Done(base, st) == Done(base, p.st) + [x]
  {
    var c := p.completed + 1;
    var q := Pass(Going, c, fs, Updated(st, Reported(c, |plan|), Some(c), Some(|plan|)));
    assert q.st.issued == st.issued && q.st.totalDownloads == Some(|plan|) && q.st.cancelled == st.cancelled;
    CountedTasks(s, base, plan, p, x, st, q);
    CountedReports(base, plan, p, q);
  }

  /** The downloads part, for any state after the download that logs
      nothing more and keeps the flag. */
  lemma CountedTasks(s: Settings, base: World, plan: seq<Task>, p: Pass, x: Task, st: World, q: Pass)
    requires IsValid(s.today) && TasksTracked(s, base, plan, p) && DownloadedAfter(p, x, q.fs, st) && p.halt.Going?
    requires Done(base, p.st) + [x] <= plan
    requires Lookup(s.v, x.kind).Ok? && Target(s, x.pid, x.kind) in q.fs.files
    requires q.halt.Going? && q.completed == p.completed + 1
    requires q.st.issued == st.issued && q.st.cancelled == st.cancelled
    ensures TasksTracked(s, base, plan, q)
    ensures Done(base, st) == Done(base, p.st) + [x]
  {
    DoneGrows(base.issued, p.st.issued, x);
    if !q.st.cancelled {
      SavedGrows(s, Done(base, p.st), x, p.fs, q.fs);
    }
  }

  /** One kind keeps the invariant and adds its download, when checked, to
      the downloads started. */
  lemma KindStepTracked(s: Settings, env: Env, pid: string, t: DataType, base: World, plan: seq<Task>, p: Pass)
    requires IsValid(s.today) && Tracked(s, base, plan, p) && p.halt.Going? && Lookup(s.v, t).Ok?
    requires t in s.checked ==> Done(base, p.st) + [Task(pid, t)] <= plan
    ensures var q := KindStep(s, env, pid, t, |plan|, p);
      && Tracked(s, base, plan, q) && !q.halt.Broke?
      && Done(base, q.st) == Done(base, p.st) + (if t in s.checked then [Task(pid, t)] else [])
  {
    if t in s.checked {
      var x := Task(pid, t);
      var st0 := p.st.(issued := p.st.issued + [x]);
      var d := DownloadFrom(s, env, pid, t, p.fs, 0, st0);
      DownloadEffect(s, env, pid, t, p.fs, 0, st0);
      ProgressValuesAppend(st0.signals, CancelSignals(env, st0.polls, d.st.polls));
      assert DownloadedAfter(p, x, d.fs, d.st);
      match d.result
      case Err(f) =>
        RaisedTracked(s, base, plan, p, x, d.fs, d.st, f);
      case Ok(saved) =>
        if saved {
          CountedTracked(s, base, plan, p, x, d.fs, d.st);
        } else {
          SkippedTracked(s, base, plan, p, x, d.fs, d.st);
        }
    }
  }

  /** `ts[..j]` of the checked kinds, as one participant's row, is a prefix of the whole row. */
  lemma RowUpTo(pid: string, order: seq<DataType>, j: nat, checked: set<DataType>)
    requires j <= |order|
    ensures Row(pid, Checked(order[..j], checked)) <= Row(pid, Checked(order, checked))
  {
    CheckedPrefix(order, j, checked);
    RowPrefix(pid, Checked(order[..j], checked), Checked(order, checked));
  }

  lemma RowSnoc(pid: string, c: seq<DataType>, t: DataType)
    ensures Row(pid, c + [t]) == Row(pid, c) + [Task(pid, t)]
  {
  }

  lemma AppendPrefix<T>(prefix: seq<T>, a: seq<T>, b: seq<T>)
    requires a <= b
    ensures prefix + a <= prefix + b
  {
    assert (prefix + b)[..|prefix + a|] == prefix + a;
  }

  lemma PrefixTrans<T>(a: seq<T>, b: seq<T>, c: seq<T>)
    requires a <= b && b <= c
    ensures a <= c
  {
    assert c[..|a|] == c[..|b|][..|a|];
  }

  /** The participant's row up to `j + 1` is the row up to `j` and, when
      checked, kind `j`. */
  lemma RowExtend(prefix: seq<Task>, pid: string, order: seq<DataType>, j: nat, checked: set<DataType>)
    requires j < |order|
    ensures prefix + Row(pid, Checked(order[..j + 1], checked))
      == (prefix + Row(pid, Checked(order[..j], checked))) + (if order[j] in checked then [Task(pid, order[j])] else [])
  {
    CheckedStep(order, j, checked);
    if order[j] in checked {
      RowSnoc(pid, Checked(order[..j], checked), order[j]);
    }
  }

  /** Kind `j` moves a participant's share of the downloads started by
      that kind, when checked, and stays within the plan. */
  lemma RowNext(prefix: seq<Task>, pid: string, order: seq<DataType>, j: nat, checked: set<DataType>,
                done: seq<Task>, plan: seq<Task>)
    requires j < |order|
    requires done == prefix + Row(pid, Checked(order[..j], checked))
    requires prefix + Row(pid, Checked(order, checked)) <= plan
    ensures prefix + Row(pid, Checked(order[..j + 1], checked))
      == done + (if order[j] in checked then [Task(pid, order[j])] else [])
    ensures done + (if order[j] in checked then [Task(pid, order[j])] else []) <= plan
  {
    var next := prefix + Row(pid, Checked(order[..j + 1], checked));
    RowExtend(prefix, pid, order, j, checked);
    RowUpTo(pid, order, j + 1, checked);
    AppendPrefix(prefix, Row(pid, Checked(order[..j + 1], checked)), Row(pid, Checked(order, checked)));
    PrefixTrans(next, prefix + Row(pid, Checked(order, checked)), plan);
  }

  /** A participant's row up to `j` lies within its whole row, and is the
      whole row once `j` reaches the end. */
  lemma RowWithin(prefix: seq<Task>, pid: string, order: seq<DataType>, j: nat, checked: set<DataType>)
    requires j <= |order|
    ensures prefix + Row(pid, Checked(order[..j], checked)) <= prefix + Row(pid, Checked(order, checked))
    ensures j == |order| ==> Row(pid, Checked(order[..j], checked)) == Row(pid, Checked(order, checked))
  {
    RowUpTo(pid, order, j, checked);
    AppendPrefix(prefix, Row(pid, Checked(order[..j], checked)), Row(pid, Checked(order, checked)));
    assert j == |order| ==> order[..j] == order;
  }

  /** One kind of one participant keeps the invariant and moves the
      downloads started one checked kind along the participant's row. */
  lemma KindNextTracked(s: Settings, env: Env, pid: string, order: seq<DataType>, j: nat,
                        base: World, plan: seq<Task>, prefix: seq<Task>, p: Pass)
    requires IsValid(s.today) && j < |order| && Lookup(s.v, order[j]).Ok?
    requires Tracked(s, base, plan, p) && p.halt.Going?
    requires Done(base, p.st) == prefix + Row(pid, Checked(order[..j], s.checked))
    requires prefix + Row(pid, Checked(order, s.checked)) <= plan
    ensures var q := KindNext(s, env, pid, order, j, |plan|, p);
      && Tracked(s, base, plan, q)
      && Done(base, q.st) == prefix + Row(pid, Checked(order[..j + 1], s.checked))
  {
    RowNext(prefix, pid, order, j, s.checked, Done(base, p.st), plan);
    KindStepTracked(s, env, pid, order[j], base, plan, p);
    var q := KindStep(s, env, pid, order[j], |plan|, p);
    AfterKindTracked(s, env, j + 1 == |order|, base, plan, q);
    assert KindNext(s, env, pid, order, j, |plan|, p) == AfterKind(env, j + 1 == |order|, q);
  }

  /** The kinds of one participant from `j` on: the downloads started stay
      between the participant's prefix of the plan and its full row, and
      reach the full row unless the loop stopped. */
  lemma {:induction false} KindsTracked(s: Settings, env: Env, pid: string, order: seq<DataType>, j: nat,
                                        base: World, plan: seq<Task>, prefix: seq<Task>, p: Pass)
    requires IsValid(s.today) && j <= |order|
    requires forall k :: 0 <= k < |order| ==> Lookup(s.v, order[k]).Ok?
    requires Tracked(s, base, plan, p)
    requires prefix <= Done(base, p.st) <= prefix + Row(pid, Checked(order[..j], s.checked))
    requires p.halt.Going? ==> Done(base, p.st) == prefix + Row(pid, Checked(order[..j], s.checked))
    requires prefix + Row(pid, Checked(order, s.checked)) <= plan
    ensures var q := KindsFrom(s, env, pid, order, j, |plan|, p);
      && Tracked(s, base, plan, q)
      && prefix <= Done(base, q.st) <= prefix + Row(pid, Checked(order, s.checked))
      && (q.halt.Going? ==> Done(base, q.st) == prefix + Row(pid, Checked(order, s.checked)))
    decreases |order| - j
  {
    if j >= |order| || !p.halt.Going? {
      RowWithin(prefix, pid, order, j, s.checked);
    } else {
      KindNextTracked(s, env, pid, order, j, base, plan, prefix, p);
      var q := KindNext(s, env, pid, order, j, |plan|, p);
      KindsTracked(s, env, pid, order, j + 1, base, plan, prefix, q);
      assert KindsFrom(s, env, pid, order, j, |plan|, p) == KindsFrom(s, env, pid, order, j + 1, |plan|, q);
    }
  }

  /** The participants from `i` on: the invariant holds at the end, and the
      whole plan has been started unless the loop stopped. */
  lemma {:induction false} ParticipantsTracked(s: Settings, env: Env, ids: seq<string>, i: nat, base: World, p: Pass)
    requires IsValid(s.today) && i <= |ids|
    requires Tracked(s, base, Planned(s, ids), p)
    requires p.halt.Going? ==> Done(base, p.st) == Plan(ids[..i], CheckedOrder(s.v, s.checked))
    ensures var q := ParticipantsFrom(s, env, ids, i, |Planned(s, ids)|, p);
      && Tracked(s, base, Planned(s, ids), q)
      && (q.halt.Going? ==> Done(base, q.st) == Planned(s, ids))
    decreases |ids| - i
  {
    var plan := Planned(s, ids);
    if i >= |ids| || !p.halt.Going? {
      assert i == |ids| ==> ids[..i] == ids;
    } else {
      ParticipantNextTracked(s, env, ids, i, base, p);
      var q := ParticipantNext(s, env, ids[i], |plan|, p);
      ParticipantsTracked(s, env, ids, i + 1, base, q);
      assert ParticipantsFrom(s, env, ids, i, |plan|, p) == ParticipantsFrom(s, env, ids, i + 1, |plan|, q);
    }
  }

  /** One participant keeps the invariant and, unless the loop stopped,
      starts exactly the participant's row of the plan. */
  lemma ParticipantNextTracked(s: Settings, env: Env, ids: seq<string>, i: nat, base: World, p: Pass)
    requires IsValid(s.today) && i < |ids|
    requires Tracked(s, base, Planned(s, ids), p) && p.halt.Going?
    requires Done(base, p.st) == Plan(ids[..i], CheckedOrder(s.v, s.checked))
    ensures var q := ParticipantNext(s, env, ids[i], |Planned(s, ids)|, p);
      && Tracked(s, base, Planned(s, ids), q)
      && (q.halt.Going? ==> Done(base, q.st) == Plan(ids[..i + 1], CheckedOrder(s.v, s.checked)))
  {
    var plan := Planned(s, ids);
    var ck := CheckedOrder(s.v, s.checked);
    PollTracked(s, env, base, plan, p);
    var st := Polled(env, p.st);
    if !st.cancelled {
      var order := DownloadOrder(s.v);
      var p' := p.(st := st);
      assert order[..0] == [];
      PlanStep(ids, i, ck);
      PlanPrefix(ids, i + 1, ck);
      KindsTracked(s, env, ids[i], order, 0, base, plan, Plan(ids[..i], ck), p');
    }
  }

  // ----- A whole run -----

  /** The invariant reads only the downloads started, the signals, the
      flag and the progress fields: it carries over to any state that
      agrees on them, from any base that agrees on them. */
  lemma TrackedCarries(s: Settings, base: World, base': World, plan: seq<Task>, p: Pass, p': Pass)
    requires IsValid(s.today) && Tracked(s, base, plan, p)
    requires base'.issued == base.issued && base'.signals == base.signals
    requires p'.halt == p.halt && p'.completed == p.completed && p'.fs == p.fs
    requires p'.st.issued == p.st.issued && p'.st.signals == p.st.signals
    requires p'.st.cancelled == p.st.cancelled && p'.st.totalDownloads == p.st.totalDownloads
    ensures Tracked(s, base', plan, p')
  {
    assert Done(base', p'.st) == Done(base, p.st);
    assert Reports(base', p'.st) == Reports(base, p.st);
  }

  /** The loop of a run keeps the invariant from its start, and starts the
      whole plan unless it stopped early. */
  lemma LoopTracked(s: Settings, env: Env, ids: seq<string>, fs: Fs, st: World)
    requires IsValid(s.today)
    ensures var q := LoopFrom(s, env, ids, fs, st);
      && Tracked(s, st, Planned(s, ids), q)
      && (q.halt.Going? ==> Done(st, q.st) == Planned(s, ids))
  {
    var plan := Planned(s, ids);
    var st' := Updated(st, 10, Some(0), Some(|plan|));
    StartTracked(s, plan, fs, st);
    assert Done(st, st') == [];
    assert ids[..0] == [];
    ParticipantsTracked(s, env, ids, 0, st, Pass(Going, 0, fs, st'));
  }

  /** A whole run: the client is closed and the run marked inactive on every
      exit; a failed statistics request and an empty filtered list raise
      before any download or progress update; otherwise the loop's
      invariant holds at the end, counted from the state the run began in. */
  lemma StudyOutcome(s: Settings, env: Env, fs: Fs, st: World)
    requires IsValid(s.today)
    ensures var q := StudyFrom(s, env, fs, st);
      && !q.st.active && !q.st.clientOpen
      && (env.stats.Err? ==>
            && q.halt == Raised(env.stats.failure) && q.completed == 0 && q.fs == fs
            && q.st.issued == st.issued && q.st.signals == st.signals)
      && (env.stats.Ok? && Filter(env.stats.value, s.filterText, s.inclusive) == [] ==>
            && q.halt == Raised(NoParticipants) && q.completed == 0 && q.fs == fs
            && q.st.issued == st.issued && q.st.signals == st.signals)
      && (env.stats.Ok? && Filter(env.stats.value, s.filterText, s.inclusive) != [] ==>
            var plan := Planned(s, Filter(env.stats.value, s.filterText, s.inclusive));
            && Tracked(s, st, plan, q)
            && (q.halt.Going? ==> Done(st, q.st) == plan))
  {
    var st1 := Opened(s, st);
    if env.stats.Ok? && Filter(env.stats.value, s.filterText, s.inclusive) != [] {
      var ids := Filter(env.stats.value, s.filterText, s.inclusive);
      var p := LoopFrom(s, env, ids, fs, st1);
      LoopTracked(s, env, ids, fs, st1);
      TrackedCarries(s, st1, st, Planned(s, ids), p, StudyFrom(s, env, fs, st));
    }
  }

  /** A run that neither failed nor saw the cancel flag set started every
      planned download, counted each one and saved its file, and the last
      progress value it reported is 90 (10 when nothing was planned); every
      value it reported lies in [10, 90] and none is below an earlier one. */
  lemma StudyComplete(s: Settings, env: Env, fs: Fs, st: World)
    requires IsValid(s.today)
    requires env.stats.Ok? && Filter(env.stats.value, s.filterText, s.inclusive) != []
    ensures var q := StudyFrom(s, env, fs, st);
      var plan := Planned(s, Filter(env.stats.value, s.filterText, s.inclusive));
      q.halt.Going? && !q.st.cancelled ==>
        && q.st.issued == st.issued + plan
        && q.completed == |plan| && Saved(s, plan, q.fs)
        && RisesTo(ProgressValues(st.signals), ProgressValues(q.st.signals), if plan == [] then 10 else 90)
  {
    var q := StudyFrom(s, env, fs, st);
    StudyOutcome(s, env, fs, st);
    if q.halt.Going? && !q.st.cancelled {
      CompleteFrom(s, st, Planned(s, Filter(env.stats.value, s.filterText, s.inclusive)), q);
    }
  }

  /** The invariant at the end of a loop that went through the whole plan. */
  lemma CompleteFrom(s: Settings, base: World, plan: seq<Task>, q: Pass)
    requires IsValid(s.today) && Tracked(s, base, plan, q)
    requires q.halt.Going? && !q.st.cancelled && Done(base, q.st) == plan
    ensures q.st.issued == base.issued + plan
    ensures q.completed == |plan| && Saved(s, plan, q.fs)
    ensures RisesTo(ProgressValues(base.signals), ProgressValues(q.st.signals), if plan == [] then 10 else 90)
  {
    ReportedEnds(|plan|);
    TrailRises(ProgressValues(base.signals), ProgressValues(q.st.signals), |plan|);
  }

  /** A trail that reached the end of its plan rises to 90, or stays at 10
      when nothing was planned. */
  lemma TrailRises(before: seq<int>, after: seq<int>, total: nat)
    requires |before| < |after| && after[..|before|] == before
    requires ProgressTrail(after[|before|..], total, total)
    ensures RisesTo(before, after, if total == 0 then 10 else 90)
  {
    var vals := after[|before|..];
    ReportedEnds(total);
    forall i, j | |before| <= i <= j < |after|
      ensures 10 <= after[i] <= after[j] <= 90
    {
      assert after[i] == vals[i - |before|] && after[j] == vals[j - |before|];
      TrailMonotone(vals, total, total, i - |before|, j - |before|);
    }
  }

  /** `after` extends `before` by at least one progress value; the values
      added lie in [10, 90], none is below an earlier one, and the last is
      `last`. */
  ghost predicate RisesTo(before: seq<int>, after: seq<int>, last: int) {
    && |before| < |after| && after[..|before|] == before
    && after[|after| - 1] == last
    && (forall i, j :: |before| <= i <= j < |after| ==> 10 <= after[i] <= after[j] <= 90)
  }
}
