/** The download worker thread: its cancel flag and progress fields, the
    signals it emits, the checks it makes before a run, and the texts it
    reports for progress and HTTP failures. */
module Worker {
  import opened Common
  import opened Strings
  import opened Registry

  /** A signal the worker emits, with its argument. */
  datatype Signal =
    | Progress(value: int)
    | ProgressText(text: string)
    | Error(message: string)
    | Cancelled
    | Finished

  /** The values of the `progress` signals among `signals`, in order. */
  function ProgressValues(signals: seq<Signal>): (r: seq<int>)
    ensures |r| <= |signals|
  {
    if |signals| == 0 then []
    else
      var last := signals[|signals| - 1];
      ProgressValues(signals[..|signals| - 1]) + (if last.Progress? then [last.value] else [])
  }

  lemma {:induction false} ProgressValuesAppend(a: seq<Signal>, b: seq<Signal>)
    ensures ProgressValues(a + b) == ProgressValues(a) + ProgressValues(b)
    decreases |b|
  {
    if |b| > 0 {
      assert (a + b)[..|a + b| - 1] == a + b[..|b| - 1];
      ProgressValuesAppend(a, b[..|b| - 1]);
    } else {
      assert a + b == a;
    }
  }

  /** The widgets the checks before a run read: the chosen folder (`None`
      while none is chosen), the study id field, the inclusive checkbox and
      the participant list field. */
  datatype Form = Form(downloadFolder: Option<seq<string>>, studyId: string, inclusive: bool, filterText: string)

  const NoFolderMessage: string := "Please select a download folder."
  const BadStudyMessage: string := "Please enter a valid Chronicle study ID."
  const NoIncludeListMessage: string :=
    "Please enter a valid list of participant IDs to *include* when the *inclusive* list checkbox is checked."

  /** A study id is a UUID: 36 characters once stripped. */
  const StudyIdLength: nat := 36

  /** The checks of `_run`, in order; `None` lets the run proceed. */
  function Validate(f: Form): (r: Option<string>)
    ensures r == None <==>
      f.downloadFolder.Some? && |Strip(f.studyId)| >= StudyIdLength && !(f.inclusive && Strip(f.filterText) == [])
    ensures r.Some? ==> r.value in {NoFolderMessage, BadStudyMessage, NoIncludeListMessage}
  {
    if f.downloadFolder.None? then Some(NoFolderMessage)
    else if |Strip(f.studyId)| < StudyIdLength then Some(BadStudyMessage)
    else if f.inclusive && Strip(f.filterText) == [] then Some(NoIncludeListMessage)
    else None
  }

  /** The checks short-circuit: a message is reported only when every
      earlier check passed, and a missing folder wins over everything. */
  lemma ValidationOrder(f: Form)
    ensures f.downloadFolder.None? ==> Validate(f) == Some(NoFolderMessage)
    ensures Validate(f) == Some(BadStudyMessage) <==>
      f.downloadFolder.Some? && |Strip(f.studyId)| < StudyIdLength
    ensures Validate(f) == Some(NoIncludeListMessage) <==>
      f.downloadFolder.Some? && |Strip(f.studyId)| >= StudyIdLength && f.inclusive && AllSpace(f.filterText)
  {
    StripEmptyIff(f.filterText);
  }

  /** The description paired with an HTTP status code in the error message. */
  function HttpDescription(code: int): (r: string)
    ensures r == "Unknown" <==> code != 401 && code != 403 && code != 404
  {
    if code == 401 then "Unauthorized. Please check the authorization token and try again."
    else if code == 403 then "Forbidden"
    else if code == 404 then "Not Found"
    else "Unknown"
  }

  /** A known code's description names that code alone. */
  lemma HttpDescriptionsDistinct(code: int, other: int)
    requires code != other && HttpDescription(code) != "Unknown"
    ensures HttpDescription(other) != HttpDescription(code)
  {
  }

  /** `str(n)` for an integer. */
  function IntToString(n: int): (r: string)
    ensures n >= 0 ==> r == NatToString(n)
    ensures |r| >= 1
  {
    if n < 0 then "-" + NatToString(-n) else NatToString(n)
  }

  const HttpPrefix: string := "An HTTP error occurred while attempting to download the data:\n\n"
  const HttpAdvice: string := ". Please ensure that the study and data type you chose correspond."
  const GenericErrorMessage: string := "An error occurred while downloading the data: "

  /** The message for a run that ended in an HTTP status error: the code and
      its description; the refactored worker adds a closing sentence. */
  function HttpMessage(v: Variant, code: int): (r: string)
    ensures StartsWith(r, HttpPrefix + IntToString(code) + " " + HttpDescription(code))
    ensures v == Legacy ==> r == HttpPrefix + IntToString(code) + " " + HttpDescription(code)
    ensures v == Refactored ==> EndsWith(r, HttpAdvice)
  {
    var core := HttpPrefix + IntToString(code) + " " + HttpDescription(code);
    StartsWithAppend(core, if v == Refactored then HttpAdvice else "");
    EndsWithAppend(core, HttpAdvice);
    if v == Refactored then core + HttpAdvice else core
  }

  /** The two variants report the same code and description; they differ
      only in the refactored worker's closing sentence. */
  lemma HttpMessagesAgree(code: int)
    ensures HttpMessage(Refactored, code) == HttpMessage(Legacy, code) + HttpAdvice
  {
  }

  /** The text under the progress bar: the two counts below 100, the total
      alone once the bar is full. */
  function ProgressMessage(value: int, completed: nat, total: nat): (r: string)
    ensures value < 100 ==> StartsWith(r, "Downloaded " + NatToString(completed) + " of ")
    ensures value >= 100 ==> StartsWith(r, "Complete! Downloaded ")
    ensures EndsWith(r, " " + NatToString(total) + " files")
  {
    if value < 100 then
      StartsWithAppend("Downloaded " + NatToString(completed) + " of ", NatToString(total) + " files");
      EndsWithAppend("Downloaded " + NatToString(completed) + " of", " " + NatToString(total) + " files");
      "Downloaded " + NatToString(completed) + " of " + NatToString(total) + " files"
    else
      StartsWithAppend("Complete! Downloaded ", NatToString(total) + " files");
      EndsWithAppend("Complete! Downloaded", " " + NatToString(total) + " files");
      "Complete! Downloaded " + NatToString(total) + " files"
  }

  /** Both counts can be read back from the text below 100, and the total
      from the text at 100. */
  lemma ProgressMessageCounts(value: int, completed: nat, total: nat)
    ensures var r := ProgressMessage(value, completed, total);
      var c := NatToString(completed);
      var t := NatToString(total);
      && (value < 100 ==> DecimalValue(r[11..11 + |c|]) == completed)
      && DecimalValue(r[|r| - 6 - |t|..|r| - 6]) == total
  {
    var r := ProgressMessage(value, completed, total);
    var c := NatToString(completed);
    var t := NatToString(total);
    NatToStringValue(completed);
    NatToStringValue(total);
    assert EndsWith(r, " " + t + " files");
    assert r[|r| - 6 - |t|..|r| - 6] == (" " + t + " files")[1..1 + |t|] == t;
    if value < 100 {
      assert StartsWith(r, "Downloaded " + c + " of ");
      assert r[11..11 + |c|] == ("Downloaded " + c + " of ")[11..11 + |c|] == c;
    }
  }

  /** The worker thread object. `completedDownloads` and `totalDownloads`
      are attributes the first counted progress update creates; `None`
      stands for their absence before it. */
  class DownloadWorker {
    var isCancelled: bool
    var currentProgress: int
    var completedDownloads: Option<nat>
    var totalDownloads: Option<nat>
    /** Every signal emitted so far, oldest first. */
    var signals: seq<Signal>

    constructor ()
      ensures !isCancelled && currentProgress == 0 && signals == []
      ensures completedDownloads == None && totalDownloads == None
    {
      isCancelled := false;
      currentProgress := 0;
      completedDownloads := None;
      totalDownloads := None;
      signals := [];
    }

    /** Sets the cancel flag for the running download to notice, and emits
        `cancelled`. The flag is never cleared. */
    method Cancel()
      modifies this
      ensures isCancelled
      ensures signals == old(signals) + [Cancelled]
      ensures currentProgress == old(currentProgress)
      ensures completedDownloads == old(completedDownloads) && totalDownloads == old(totalDownloads)
    {
      isCancelled := true;
      signals := signals + [Cancelled];
    }

    /** Stores and emits `value`; when both counts are given, stores them too
        and emits the progress text. */
    method UpdateProgress(value: int, completed: Option<nat>, total: Option<nat>)
      modifies this
      ensures currentProgress == value
      ensures completed.Some? && total.Some? ==>
        && signals == old(signals) + [Progress(value), ProgressText(ProgressMessage(value, completed.value, total.value))]
        && completedDownloads == completed && totalDownloads == total
      ensures !(completed.Some? && total.Some?) ==>
        && signals == old(signals) + [Progress(value)]
        && completedDownloads == old(completedDownloads) && totalDownloads == old(totalDownloads)
      ensures isCancelled == old(isCancelled)
      ensures ProgressValues(signals) == ProgressValues(old(signals)) + [value]
    {
      currentProgress := value;
      var emitted := [Progress(value)];
      if completed.Some? && total.Some? {
        completedDownloads := completed;
        totalDownloads := total;
        emitted := emitted + [ProgressText(ProgressMessage(value, completed.value, total.value))];
      }
      ProgressValuesAppend(signals, emitted);
      assert ProgressValues(emitted) == [value] by {
        if |emitted| == 2 {
          assert emitted[..1] == [Progress(value)];
        }
      }
      signals := signals + emitted;
    }

    /** Emits a signal that carries no state change: an error, `finished`,
        or the bare `progress.emit(0)` at the start of a run. */
    method Emit(s: Signal)
      modifies this
      ensures signals == old(signals) + [s]
      ensures isCancelled == old(isCancelled) && currentProgress == old(currentProgress)
      ensures completedDownloads == old(completedDownloads) && totalDownloads == old(totalDownloads)
    {
      signals := signals + [s];
    }
  }

  /** Cancelling twice leaves the flag as cancelling once does. */
  method CancelTwice(w: DownloadWorker)
    modifies w
    ensures w.isCancelled
    ensures w.signals == old(w.signals) + [Cancelled, Cancelled]
    ensures w.currentProgress == old(w.currentProgress)
  {
    w.Cancel();
    w.Cancel();
  }
}
