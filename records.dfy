/** Record coercion (app.py, the DataFrame comprehension): every parsed JSON object of the
    input file becomes one flat video record. Metric fields degrade to 0 when they are neither
    a native number nor a digit string; the Python exceptions the comprehension can raise are
    `Failure` values. */
module Records {
  import opened Wrappers
  import opened Text

  /** A parsed JSON value as `json.load` returns it. Python `True`/`False` are `Bool`, JSON
      numbers with a fraction or exponent are `Float`, arrays are `Arr`, objects are `Obj`. */
  datatype Value =
    | Null
    | Bool(b: bool)
    | Int(i: int)
    | Float(x: real)
    | Str(s: string)
    | Arr(items: seq<Value>)
    | Obj(fields: map<string, Value>)

  /** One element of the input list: a JSON object. */
  type RawRecord = map<string, Value>

  /** The flat record of one video. Creator, link and song title hold the JSON value the
      object carries (the column type pandas infers from them is not modelled); the five
      counts are Python ints. */
  datatype Video = Video(
    creator: Value,
    description: string,
    videoUrl: Value,
    likes: int,
    shares: int,
    bookmarks: int,
    comments: int,
    songTitle: Value,
    views: int)

  /** The exceptions the comprehension and the first column access can raise. */
  datatype CoercionError =
    | TitleNotString        // slicing a non-string title: `None[:80]` is a TypeError
    | StatsNotObject        // `statsV2` is not a dict, so `.get` is an AttributeError
    | PlayCountNotInteger   // `int()` of a null, a non-digit string or a container
    | NoColumns             // an empty list gives a frame without columns: KeyError

  const DescriptionLimit: nat := 80
  const UnknownCreator: string := "Unbekannt"

  /** `dict.get(key)`: `None` when the key is absent. */
  function Lookup(item: RawRecord, key: string): (r: Option<Value>)
    ensures r.Some? <==> key in item
    ensures r.Some? ==> r.value == item[key]
  {
    if key in item then Some(item[key]) else None
  }

  /** `dict.get(key, default)`. */
  function LookupOr(item: RawRecord, key: string, default: Value): (r: Value)
    ensures key in item ==> r == item[key]
    ensures key !in item ==> r == default
  {
    if key in item then item[key] else default
  }

  /** Truncation toward zero, as Python's `int(float)` does it (Dafny's `Floor` rounds down). */
  function Trunc(x: real): (r: int)
    ensures x >= 0.0 ==> 0 <= r && r as real <= x < r as real + 1.0
    ensures x < 0.0 ==> r <= 0 && r as real - 1.0 < x <= r as real
  {
    if x >= 0.0 then x.Floor else -((-x).Floor)
  }

  /** `isinstance(v, (int, float))`; `bool` is a subclass of `int`. */
  predicate IsNumber(v: Value) {
    v.Bool? || v.Int? || v.Float?
  }

  /** Python's `int(v)` on a parsed JSON value. Digit strings are parsed; every other string,
      null and containers fail (see README for the string forms this leaves out). */
  function IntOf(v: Value): (r: Result<int, CoercionError>)
    ensures r.Success? <==> IsNumber(v) || (v.Str? && IsDigits(v.s))
    ensures v.Int? ==> r == Success(v.i)
    ensures v.Bool? ==> r == Success(if v.b then 1 else 0)
    ensures v.Float? ==> r.Success? && -1.0 < v.x - r.value as real < 1.0
    ensures v.Float? ==> r.Success? && (r.value < 0 <==> v.x <= -1.0)
    ensures v.Str? && r.Success? ==> r.value >= 0
    ensures v.Float? ==> r == Success(Trunc(v.x))
    ensures v.Str? && IsDigits(v.s) ==> r == Success(DecimalValue(v.s))
  {
    match v
    case Bool(b) => Success(if b then 1 else 0)
    case Int(i) => Success(i)
    case Float(x) => Success(Trunc(x))
    case Str(s) => if IsDigits(s) then Success(DecimalValue(s)) else Failure(PlayCountNotInteger)
    case _ => Failure(PlayCountNotInteger)
  }

  /** A value that the metric coercion accepts: a native number or a digit string. */
  predicate MetricAccepted(v: Value) {
    IsNumber(v) || (v.Str? && IsDigits(v.s))
  }

  /** One engagement metric (likes, shares, bookmarks, comments) from `item.get(key)`. */
  function Metric(f: Option<Value>): (r: int)
    ensures !(f.Some? && MetricAccepted(f.value)) ==> r == 0
    ensures f.Some? && f.value.Str? ==> r >= 0
    ensures f.Some? && f.value.Int? ==> r == f.value.i
    ensures f.Some? && MetricAccepted(f.value) ==> r == IntOf(f.value).value
    ensures r < 0 ==> f.Some? && ((f.value.Int? && f.value.i == r) || (f.value.Float? && f.value.x <= -1.0))
  {
    if f.Some? && MetricAccepted(f.value) then IntOf(f.value).value else 0
  }

  /** The title cut to its first 80 characters; a missing title is "". */
  function Description(title: Option<Value>): (r: Result<string, CoercionError>)
    ensures title.None? ==> r == Success("")
    ensures r.Success? <==> title.None? || title.value.Str?
    ensures title.Some? && title.value.Str? ==>
      var t := title.value.s;
      r.Success? && |r.value| == (if |t| < DescriptionLimit then |t| else DescriptionLimit)
      && r.value == t[..|r.value|]
  {
    match title
    case None => Success("")
    case Some(Str(t)) => Success(if |t| <= DescriptionLimit then t else t[..DescriptionLimit])
    case Some(_) => Failure(TitleNotString)
  }

  /** `statsV2.playCount`: 0 when `statsV2` is absent or null, `playCount` defaulting to 0. */
  function Views(stats: Option<Value>): (r: Result<int, CoercionError>)
    ensures stats.None? || stats == Some(Null) ==> r == Success(0)
    ensures stats.Some? && stats.value.Obj? && "playCount" !in stats.value.fields ==> r == Success(0)
    ensures stats.Some? && stats.value.Obj? && "playCount" in stats.value.fields ==>
      r == IntOf(stats.value.fields["playCount"])
    ensures stats.Some? && !stats.value.Null? && !stats.value.Obj? ==> r == Failure(StatsNotObject)
  {
    match stats
    case None => Success(0)
    case Some(Null) => Success(0)
    case Some(Obj(m)) => IntOf(if "playCount" in m then m["playCount"] else Int(0))
    case Some(_) => Failure(StatsNotObject)
  }

  /** One element of the comprehension: the flat record built from one JSON object. */
  function CoerceRecord(item: RawRecord): (r: Result<Video, CoercionError>)
    ensures r.Success? <==> Description(Lookup(item, "title")).Success? && Views(Lookup(item, "statsV2")).Success?
    ensures r.Success? ==>
      && r.value.creator == LookupOr(item, "tiktok_user", Str(UnknownCreator))
      && r.value.description == Description(Lookup(item, "title")).value
      && r.value.videoUrl == LookupOr(item, "item_url", LookupOr(item, "video_url", Str("")))
      && r.value.likes == Metric(Lookup(item, "likes"))
      && r.value.shares == Metric(Lookup(item, "shares"))
      && r.value.bookmarks == Metric(Lookup(item, "bookmarks"))
      && r.value.comments == Metric(Lookup(item, "comments"))
      && r.value.songTitle == LookupOr(item, "song_title", Str(""))
      && r.value.views == Views(Lookup(item, "statsV2")).value
    ensures r.Failure? ==>
      r.error == if Description(Lookup(item, "title")).Failure? then TitleNotString
                 else Views(Lookup(item, "statsV2")).error
  {
    var desc := Description(Lookup(item, "title"));
    var views := Views(Lookup(item, "statsV2"));
    if desc.Failure? then Failure(desc.error)
    else if views.Failure? then Failure(views.error)
    else Success(Video(
      LookupOr(item, "tiktok_user", Str(UnknownCreator)),
      desc.value,
      LookupOr(item, "item_url", LookupOr(item, "video_url", Str(""))),
      Metric(Lookup(item, "likes")),
      Metric(Lookup(item, "shares")),
      Metric(Lookup(item, "bookmarks")),
      Metric(Lookup(item, "comments")),
      LookupOr(item, "song_title", Str("")),
      views.value))
  }

  /** The whole comprehension: every object yields one record, in order, unless one of them
      raises, in which case the first raising object decides the error. */
  function CoerceAll(data: seq<RawRecord>): (r: Result<seq<Video>, CoercionError>)
    ensures r.Success? <==> forall k :: 0 <= k < |data| ==> CoerceRecord(data[k]).Success?
    ensures r.Success? ==> |r.value| == |data|
    ensures r.Success? ==> forall k :: 0 <= k < |data| ==> CoerceRecord(data[k]) == Success(r.value[k])
    ensures r.Failure? ==>
      exists k :: (0 <= k < |data| && CoerceRecord(data[k]) == Failure(r.error)
                   && forall j :: 0 <= j < k ==> CoerceRecord(data[j]).Success?)
  {
    if |data| == 0 then Success([])
    else
      var head := CoerceRecord(data[0]);
      if head.Failure? then Failure(head.error)
      else
        var tail := CoerceAll(data[1..]);
        if tail.Failure? then
          assert forall j :: 1 <= j < |data| ==> data[j] == data[1..][j - 1];
          Failure(tail.error)
        else Success([head.value] + tail.value)
  }

  /** The table of the dashboard. An empty input list fails: its frame has no columns, so
      the first access to a metric column raises. */
  function BuildTable(data: seq<RawRecord>): (r: Result<seq<Video>, CoercionError>)
    ensures |data| == 0 ==> r == Failure(NoColumns)
    ensures |data| > 0 ==> r == CoerceAll(data)
  {
    if |data| == 0 then Failure(NoColumns) else CoerceAll(data)
  }

  /** All five counts of a record are non-negative. */
  predicate NonNegativeCounts(v: Video) {
    v.likes >= 0 && v.shares >= 0 && v.bookmarks >= 0 && v.comments >= 0 && v.views >= 0
  }

  /** A value that is not a negative native number. */
  predicate NotNegativeNumber(v: Value) {
    !(v.Int? && v.i < 0) && !(v.Float? && v.x < 0.0)
  }

  /** No metric field and no `playCount` of the object is a negative native number. */
  predicate NoNegativeNumbers(item: RawRecord) {
    && (forall key :: key in item && key in {"likes", "shares", "bookmarks", "comments"} ==> NotNegativeNumber(item[key]))
    && ("statsV2" in item && item["statsV2"].Obj? && "playCount" in item["statsV2"].fields ==>
          NotNegativeNumber(item["statsV2"].fields["playCount"]))
  }

  /** A metric is negative only when the field held a native negative number. */
  lemma MetricNonNegative(f: Option<Value>)
    requires f.Some? ==> NotNegativeNumber(f.value)
    ensures Metric(f) >= 0
  {
  }

  /** The counts of a coerced record are non-negative unless the object held a native
      negative number: digit strings can never be negative. */
  lemma CoercedCountsNonNegative(item: RawRecord)
    requires NoNegativeNumbers(item)
    requires CoerceRecord(item).Success?
    ensures NonNegativeCounts(CoerceRecord(item).value)
  {
    var keys := {"likes", "shares", "bookmarks", "comments"};
    assert "likes" in keys && "shares" in keys && "bookmarks" in keys && "comments" in keys;
    MetricNonNegative(Lookup(item, "likes"));
    MetricNonNegative(Lookup(item, "shares"));
    MetricNonNegative(Lookup(item, "bookmarks"));
    MetricNonNegative(Lookup(item, "comments"));
  }

  /** A rendered count is read back as that count, the same way a native integer is. */
  lemma MetricOfDigitString(n: nat)
    ensures Metric(Some(Str(DecimalString(n)))) == n
    ensures Metric(Some(Int(n))) == n
  {
    DecimalRoundTrip(n);
  }

  /** The asymmetry between native and textual negatives: `-5` is kept, `"-5"` becomes 0. */
  lemma NegativeAsymmetry()
    ensures Metric(Some(Int(-5))) == -5
    ensures Metric(Some(Str("-5"))) == 0
    ensures Metric(Some(Float(-2.7))) == -2
    ensures Metric(Some(Bool(true))) == 1
    ensures Metric(Some(Null)) == 0 && Metric(None) == 0 && Metric(Some(Str(""))) == 0
  {
    assert !IsDigit('-');
  }

  /** The example object `{"likes": "7", "shares": 3, "bookmarks": null, "comments": "abc"}`. */
  lemma ExampleCoercion()
    ensures var item := map["likes" := Str("7"), "shares" := Int(3), "bookmarks" := Null, "comments" := Str("abc")];
      var r := CoerceRecord(item);
      r.Success? && r.value.likes == 7 && r.value.shares == 3 && r.value.bookmarks == 0
      && r.value.comments == 0 && r.value.views == 0 && r.value.description == ""
      && r.value.creator == Str(UnknownCreator)
  {
    var item := map["likes" := Str("7"), "shares" := Int(3), "bookmarks" := Null, "comments" := Str("abc")];
    assert IsDigits("7");
    assert DecimalValue("7") == 7;
    assert !IsDigit('a');
    assert Lookup(item, "comments") == Some(Str("abc"));
  }
}
