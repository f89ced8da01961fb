/** The three string enumerations shared by the refactored package and the
    single-file script: each variant carries the string it stands for. */
module Enums {
  import opened Common

  /** How the participant-id list is applied. */
  datatype FilterType = Inclusive | Exclusive

  function FilterValue(f: FilterType): (r: string)
    ensures f.Inclusive? <==> r == "Inclusive"
    ensures f.Exclusive? <==> r == "Exclusive"
  {
    match f
    case Inclusive => "Inclusive"
    case Exclusive => "Exclusive"
  }

  /** Device families known to the Chronicle service. */
  datatype DeviceType = Amazon | Android | IPhone

  function DeviceValue(d: DeviceType): (r: string)
    ensures |r| > 0
  {
    match d
    case Amazon => "Amazon Fire"
    case Android => "Android"
    case IPhone => "iPhone"
  }

  /** Kinds of data a study can be downloaded as. */
  datatype DataType = Raw | Survey | Preprocessed | IosSensor | DayTime | NightTime | Summarized

  /** The `dataType` query value sent to the service. */
  function DataTypeValue(t: DataType): (r: string)
    ensures |r| > 0
  {
    match t
    case Raw => "UsageEvents"
    case Survey => "AppUsageSurvey"
    case Preprocessed => "Preprocessed"
    case IosSensor => "IOSSensor"
    case DayTime => "DayTime"
    case NightTime => "NightTime"
    case Summarized => "Summarized"
  }

  /** The variants in declaration order. */
  const AllDataTypes: seq<DataType> :=
    [Raw, Survey, Preprocessed, IosSensor, DayTime, NightTime, Summarized]

  /** Looking a variant up by its string, as `ChronicleDownloadDataType(s)` does. */
  function DataTypeFromValue(s: string): (r: Option<DataType>)
    ensures r.Some? ==> DataTypeValue(r.value) == s
    ensures r.None? ==> forall t: DataType :: DataTypeValue(t) != s
  {
    if s == "UsageEvents" then Some(Raw)
    else if s == "AppUsageSurvey" then Some(Survey)
    else if s == "Preprocessed" then Some(Preprocessed)
    else if s == "IOSSensor" then Some(IosSensor)
    else if s == "DayTime" then Some(DayTime)
    else if s == "NightTime" then Some(NightTime)
    else if s == "Summarized" then Some(Summarized)
    else None
  }

  function DeviceFromValue(s: string): (r: Option<DeviceType>)
    ensures r.Some? ==> DeviceValue(r.value) == s
    ensures r.None? ==> forall d: DeviceType :: DeviceValue(d) != s
  {
    if s == "Amazon Fire" then Some(Amazon)
    else if s == "Android" then Some(Android)
    else if s == "iPhone" then Some(IPhone)
    else None
  }

  /** Exactly seven variants, every one listed once. */
  lemma AllDataTypesComplete(t: DataType)
    ensures t in AllDataTypes
    ensures |AllDataTypes| == 7
    ensures forall i, j :: 0 <= i < j < |AllDataTypes| ==> AllDataTypes[i] != AllDataTypes[j]
  {
  }

  /** Distinct variants carry distinct strings, so the string names the variant. */
  lemma DataTypeValueInjective(s: DataType, t: DataType)
    ensures DataTypeValue(s) == DataTypeValue(t) ==> s == t
  {
    if DataTypeValue(s) == DataTypeValue(t) {
      var v := DataTypeValue(s);
      assert DataTypeFromValue(v) == Some(s) && DataTypeFromValue(v) == Some(t);
    }
  }

  /** The string of a variant always looks that variant up. */
  lemma DataTypeRoundTrip(t: DataType)
    ensures DataTypeFromValue(DataTypeValue(t)) == Some(t)
  {
  }

  lemma DeviceRoundTrip(d: DeviceType)
    ensures DeviceFromValue(DeviceValue(d)) == Some(d)
  {
  }
}
