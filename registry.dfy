/** The data-type registry of the downloader: for each kind of data, the
    label written into file names, the URL family it is fetched from and the
    device segment of the file name; plus the order in which a run visits the
    kinds. The refactored package and the single-file script differ here. */
module Registry {
  import opened Common
  import opened Strings
  import opened Enums
  import opened Dates

  /** Which program is modelled: the refactored package or the single-file script. */
  datatype Variant = Refactored | Legacy

  /** Study data is fetched as CSV from `/study/`; diary data from `/time-use-diary/`. */
  datatype UrlFamily = StudyData | TimeUseDiary

  datatype Entry = Entry(labelText: string, family: UrlFamily, device: Option<DeviceType>)

  predicate IsDiary(t: DataType) {
    t == DayTime || t == NightTime || t == Summarized
  }

  /** The `match` of the download routine; the script has no case for the
      iOS sensor kind and raises `ValueError` for it. */
  function Lookup(v: Variant, t: DataType): (r: Result<Entry>)
    ensures r.Err? <==> v.Legacy? && t == IosSensor
    ensures r.Err? ==> r.failure == UnknownDataType
    ensures r.Ok? ==> (r.value.family == TimeUseDiary <==> IsDiary(t))
    ensures r.Ok? && v == Refactored ==>
      (r.value.device == Some(Android) <==> t in {Raw, Preprocessed, Survey})
      && (r.value.device == Some(IPhone) <==> t == IosSensor)
      && (r.value.device == None <==> IsDiary(t))
    ensures r.Ok? && v == Legacy ==> r.value.device == None
  {
    match t
    case Raw => Ok(Entry("Raw Data", StudyData, if v == Refactored then Some(Android) else None))
    case Preprocessed =>
      if v == Refactored then Ok(Entry("Preprocessed Data", StudyData, Some(Android)))
      else Ok(Entry("Downloaded Preprocessed Data", StudyData, None))
    case Survey => Ok(Entry("Survey Data", StudyData, if v == Refactored then Some(Android) else None))
    case IosSensor =>
      if v.Legacy? then Err(UnknownDataType)
      else Ok(Entry("IOSSensor Data", StudyData, Some(IPhone)))
    case DayTime => Ok(Entry("Time Use Diary Daytime Data", TimeUseDiary, None))
    case NightTime => Ok(Entry("Time Use Diary Nighttime Data", TimeUseDiary, None))
    case Summarized => Ok(Entry("Time Use Diary Summarized Data", TimeUseDiary, None))
  }

  const ApiBase: string := "https://api.getmethodic.com/chronicle/v3/"

  /** Everything before the query: the path of the family and the study. */
  function UrlPath(studyId: string, family: UrlFamily): string {
    match family
    case StudyData => ApiBase + "study/" + studyId + "/"
    case TimeUseDiary => ApiBase + "time-use-diary/" + studyId + "/"
  }

  function Query(pid: string, t: DataType): string {
    "participants/data?participantId=" + pid + "&dataType=" + DataTypeValue(t)
  }

  /** The request URL for one participant and kind of data. */
  function Url(studyId: string, pid: string, t: DataType, family: UrlFamily): string {
    match family
    case StudyData => UrlPath(studyId, family) + Query(pid, t) + "&fileType=csv"
    case TimeUseDiary => UrlPath(studyId, family) + Query(pid, t)
  }

  /** The study-statistics URL the participant list comes from. */
  function StatsUrl(studyId: string): (r: string)
    ensures StartsWith(r, UrlPath(studyId, StudyData))
  {
    StartsWithAppend(UrlPath(studyId, StudyData), "participants/stats");
    UrlPath(studyId, StudyData) + "participants/stats"
  }

  /** Study data asks for CSV under the study path, after a query that ends
      with the kind's wire value. */
  lemma StudyDataUrl(studyId: string, pid: string, t: DataType)
    ensures var u := Url(studyId, pid, t, StudyData);
      && StartsWith(u, ApiBase + "study/" + studyId + "/") && EndsWith(u, "&fileType=csv")
      && EndsWith(u[..|u| - 13], "&dataType=" + DataTypeValue(t))
  {
    var p := ApiBase + "study/" + studyId + "/";
    var head := "participants/data?participantId=" + pid;
    var k := "&dataType=" + DataTypeValue(t);
    var c := "&fileType=csv";
    assert Query(pid, t) == head + k;
    assert Url(studyId, pid, t, StudyData) == p + (head + k) + c;
    UrlPieces(p, head, k, c);
  }

  /** Diary data uses the diary path and asks for no file type: the URL
      ends with the kind's wire value. */
  lemma DiaryUrl(studyId: string, pid: string, t: DataType)
    ensures var u := Url(studyId, pid, t, TimeUseDiary);
      && StartsWith(u, ApiBase + "time-use-diary/" + studyId + "/") && !EndsWith(u, "&fileType=csv")
      && EndsWith(u, "&dataType=" + DataTypeValue(t))
  {
    var p := ApiBase + "time-use-diary/" + studyId + "/";
    var head := "participants/data?participantId=" + pid;
    var k := "&dataType=" + DataTypeValue(t);
    assert Query(pid, t) == head + k;
    var u := p + (head + k);
    assert Url(studyId, pid, t, TimeUseDiary) == u;
    StartsWithAppend(p, head + k);
    assert u == (p + head) + k;
    EndsWithAppend(p + head, k);
    WireValueEnd(t);
    NoCsvSuffix(u, k);
  }

  /** No wire value ends in `v`. */
  lemma WireValueEnd(t: DataType)
    ensures var w := DataTypeValue(t); |w| > 0 && w[|w| - 1] != 'v'
  {
  }

  /** A text ending with `k`, whose last character is not `v`, does not end
      with `&fileType=csv`. */
  lemma NoCsvSuffix(u: string, k: string)
    requires EndsWith(u, k) && |k| > 0 && k[|k| - 1] != 'v'
    ensures !EndsWith(u, "&fileType=csv")
  {
    assert u[|u| - 1] == u[|u| - |k|..][|k| - 1];
  }

  /** A URL built as path, query and suffix starts with the path, ends with
      the suffix and, before the suffix, with the query's end. */
  lemma UrlPieces(p: string, head: string, k: string, c: string)
    ensures var u := p + (head + k) + c;
      && StartsWith(u, p) && EndsWith(u, c) && EndsWith(u[..|u| - |c|], k)
  {
    var u := p + (head + k) + c;
    StartsWithAppend(p, head + k);
    StartsWithExtend(p + (head + k), p, c);
    EndsWithAppend(p + (head + k), c);
    assert u[..|u| - |c|] == p + (head + k);
    assert (p + (head + k))[|p + (head + k)| - |k|..] == k;
  }

  /** The middle of a file name: the device segment when there is one, then the label. */
  function NameMiddle(v: Variant, e: Entry): string {
    match v
    case Refactored =>
      (if e.device.Some? then " " + DeviceValue(e.device.value) else "") + " " + e.labelText
    case Legacy => " Android " + e.labelText
  }

  function DateSuffix(today: Date): string
    requires IsValid(today)
  {
    " " + FormatDate(today) + ".csv"
  }

  /** `"{pid} Chronicle[ {device}] {label} {MM-DD-YYYY}.csv"`; the script
      always writes the `Android` segment. */
  function FileName(v: Variant, pid: string, e: Entry, today: Date): (r: string)
    requires IsValid(today)
    ensures StartsWith(r, pid + " Chronicle") && EndsWith(r, DateSuffix(today))
    ensures StartsWith(r, pid + " Chronicle" + NameMiddle(v, e))
    ensures v == Legacy ==> StartsWith(r, pid + " Chronicle Android ")
  {
    FileNameParts(v, pid + " Chronicle", NameMiddle(v, e), e, DateSuffix(today));
    pid + " Chronicle" + NameMiddle(v, e) + DateSuffix(today)
  }

  lemma FileNameParts(v: Variant, p: string, m: string, e: Entry, d: string)
    requires m == NameMiddle(v, e)
    ensures StartsWith(p + m + d, p) && EndsWith(p + m + d, d) && StartsWith(p + m + d, p + m)
    ensures v == Legacy ==> StartsWith(p + m + d, p + " Android ")
  {
    StartsWithAppend(p, m);
    StartsWithExtend(p + m, p, d);
    StartsWithAppend(p + m, d);
    EndsWithAppend(p + m, d);
    if v == Legacy {
      assert (p + m)[..|p| + 9] == p + " Android ";
      StartsWithExtend(p + m, p + " Android ", d);
    }
  }

  /** For one participant on one day, different kinds get different file
      names, so no download overwrites another of the same run. */
  lemma FileNamesDistinct(v: Variant, pid: string, s: DataType, t: DataType, today: Date)
    requires IsValid(today)
    requires Lookup(v, s).Ok? && Lookup(v, t).Ok? && s != t
    ensures FileName(v, pid, Lookup(v, s).value, today) != FileName(v, pid, Lookup(v, t).value, today)
  {
    var ms, mt := NameMiddle(v, Lookup(v, s).value), NameMiddle(v, Lookup(v, t).value);
    var p, q := pid + " Chronicle", DateSuffix(today);
    MiddlesDistinct(v, s, t);
    assert FileName(v, pid, Lookup(v, s).value, today) == p + ms + q;
    assert FileName(v, pid, Lookup(v, t).value, today) == p + mt + q;
    FramedDistinct(p, ms, mt, q);
  }

  /** Different middles between the same front and back give different texts. */
  lemma FramedDistinct(p: string, ms: string, mt: string, q: string)
    requires ms != mt
    ensures p + ms + q != p + mt + q
  {
    var a, b := p + ms + q, p + mt + q;
    if |ms| == |mt| {
      assert a[|p|..|p| + |ms|] == ms;
      assert b[|p|..|p| + |mt|] == mt;
    } else {
      assert |a| != |b|;
    }
  }

  lemma MiddlesDistinct(v: Variant, s: DataType, t: DataType)
    requires Lookup(v, s).Ok? && Lookup(v, t).Ok? && s != t
    ensures NameMiddle(v, Lookup(v, s).value) != NameMiddle(v, Lookup(v, t).value)
  {
    if v == Legacy {
      LabelsDistinct(v, s, t);
      var a, b := Lookup(v, s).value.labelText, Lookup(v, t).value.labelText;
      assert NameMiddle(v, Lookup(v, s).value) == " Android " + a;
      assert NameMiddle(v, Lookup(v, t).value) == " Android " + b;
      assert (" Android " + a)[9..] == a;
    }
  }

  /** Within one program, different kinds have different labels. */
  lemma LabelsDistinct(v: Variant, s: DataType, t: DataType)
    requires Lookup(v, s).Ok? && Lookup(v, t).Ok? && s != t
    ensures Lookup(v, s).value.labelText != Lookup(v, t).value.labelText
  {
  }

  /** The kinds a run visits, in the order of the orchestration loop. */
  function DownloadOrder(v: Variant): (r: seq<DataType>)
    ensures forall i, j :: 0 <= i < j < |r| ==> r[i] != r[j]
    ensures forall t :: t in r <==> Lookup(v, t).Ok?
  {
    match v
    case Refactored => [Raw, Preprocessed, Survey, IosSensor, DayTime, NightTime, Summarized]
    case Legacy => [Raw, Preprocessed, Survey, DayTime, NightTime, Summarized]
  }
}
