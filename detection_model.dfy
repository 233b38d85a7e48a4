/**
 * The `DetectionImages` schema: one stored detection, its field defaults and
 * its required owner. `Build` plays `new DetectionImages({...})` followed by
 * the validation that `save()`/`create()` runs before anything is stored.
 */
module DetectionModel {
  import opened Wrappers
  import opened Js

  type Bytes = seq<bv8>
  type RecordId = nat
  type UserId = nat

  /** The `image` Buffer field; `NoImage` is a stored null. */
  datatype ImageField = NoImage | Image(bytes: Bytes)

  /** A stored detection. A `confidence` of `None` is a stored null. */
  datatype DetectionRecord = DetectionRecord(
    id: RecordId,
    image: ImageField,
    prediction: Value,
    confidence: Option<real>,
    date: int,
    userId: UserId)

  /**
   * The object handed to the model's constructor. `None` means the key is
   * missing or `undefined`; for `userId` it also covers an explicit null,
   * which the required validator refuses just the same.
   */
  datatype RecordFields = RecordFields(
    image: Option<ImageField>,
    prediction: Option<Value>,
    confidence: Option<Value>,
    date: Option<int>,
    userId: Option<UserId>)

  /** Mongoose's ValidationError, naming every path that failed. */
  datatype ValidationError = ValidationError(paths: set<string>)

  /** Outcome of casting a value to the schema type Number. */
  datatype NumberCast = Cast(number: Option<real>) | CastFailed

  /**
   * Casting to Number: numbers are kept, booleans become 1 or 0, null and the
   * empty string become null; every other value fails the cast.
   */
  function CastNumber(v: Value): (c: NumberCast)
    ensures v.Num? ==> c == Cast(Some(v.n))
    ensures v.Bool? ==> c == Cast(Some(if v.b then 1.0 else 0.0))
    ensures v.Null? || v == Str("") ==> c == Cast(None)
    ensures c.Cast? && c.number.Some? ==> v.Num? || v.Bool?
    ensures c.CastFailed? <==> v.Arr? || v.Obj? || (v.Str? && v.s != "")
  {
    match v
    case Num(n) => Cast(Some(n))
    case Bool(b) => Cast(Some(if b then 1.0 else 0.0))
    case Null => Cast(None)
    case Str(s) => if s == "" then Cast(None) else CastFailed
    case Arr(_) => CastFailed
    case Obj(_) => CastFailed
  }

  /** The value the `confidence` path takes: 0 when not supplied, else the cast. */
  function ConfidenceOf(supplied: Option<Value>): NumberCast
  {
    if supplied.None? then Cast(Some(0.0)) else CastNumber(supplied.value)
  }

  /** The paths whose validators fail for these fields. */
  function FailedPaths(f: RecordFields): (paths: set<string>)
    ensures "userId" in paths <==> f.userId.None?
    ensures "confidence" in paths <==> ConfidenceOf(f.confidence).CastFailed?
    ensures paths <= {"userId", "confidence"}
  {
    (if f.userId.None? then {"userId"} else {}) +
    (if ConfidenceOf(f.confidence).CastFailed? then {"confidence"} else {})
  }

  /**
   * Builds and validates a record with the given id at clock time `now`,
   * applying the schema's defaults to every field left undefined.
   */
  function Build(id: RecordId, now: int, f: RecordFields): (r: Result<DetectionRecord, ValidationError>)
    // the owner is required
    ensures f.userId.None? ==> r.Failure? && "userId" in r.error.paths
    // a record with an owner and a numeric or absent confidence is always accepted
    ensures f.userId.Some? && (f.confidence.None? || f.confidence.value.Num?) ==> r.Success?
    // with an owner, only an uncastable confidence is refused
    ensures f.userId.Some? && ConfidenceOf(f.confidence).CastFailed? ==> r == Failure(ValidationError({"confidence"}))
    // accepted exactly when no validator fails; a refusal reports every failing path
    ensures r.Success? <==> FailedPaths(f) == {}
    ensures r.Failure? ==> r.error.paths == FailedPaths(f)
    ensures r.Failure? ==> r.error.paths != {} && r.error.paths <= {"userId", "confidence"}
    ensures r.Success? ==> r.value.id == id && r.value.userId == f.userId.value
    // image: null unless supplied
    ensures r.Success? ==> r.value.image == (if f.image.None? then NoImage else f.image.value)
    // prediction: null unless supplied, otherwise stored as given
    ensures r.Success? ==> r.value.prediction == (if f.prediction.None? then Null else f.prediction.value)
    // confidence: 0 unless supplied; a supplied number is stored unchanged
    ensures r.Success? && f.confidence.None? ==> r.value.confidence == Some(0.0)
    ensures r.Success? && f.confidence.Some? && f.confidence.value.Num? ==> r.value.confidence == Some(f.confidence.value.n)
    // a supplied confidence is stored as its Number cast
    ensures r.Success? ==> r.value.confidence == ConfidenceOf(f.confidence).number
    // date: the creation time unless supplied
    ensures r.Success? ==> r.value.date == (if f.date.None? then now else f.date.value)
  {
    var paths := FailedPaths(f);
    assert f.userId.Some? && ConfidenceOf(f.confidence).CastFailed? ==> paths == {"confidence"};
    if paths != {} then
      Failure(ValidationError(paths))
    else
      Success(DetectionRecord(
        id,
        if f.image.Some? then f.image.value else NoImage,
        if f.prediction.Some? then f.prediction.value else Null,
        ConfidenceOf(f.confidence).number,
        if f.date.Some? then f.date.value else now,
        f.userId.value))
  }
}
