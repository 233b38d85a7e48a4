/**
 * The detection handlers: the upload filter, the upload pipeline
 * (`processImage`), the manual save (`savePrediction`) and the owner-scoped
 * listing (`getDetections`), over an in-memory store that stands for the
 * `DetectionImages` collection and the users' `detectionImages` lists.
 */
module DetectionController {
  import opened Wrappers
  import opened Js
  import opened DetectionModel

  const NotAnImageMessage := "Not an image! Please upload only images."
  const NoFileMessage := "Please upload an image file."
  const MissingPredictionMessage := "Missing 'prediction' in request body"
  const SavedMessage := "Prediction saved successfully!"

  /** The uploaded file as multer hands it over: declared MIME type and raw bytes. */
  datatype Upload = Upload(mimetype: string, buffer: Bytes)

  /** The errors a handler passes to `next(err)` or to multer's callback. */
  datatype Error =
    | NotAnImage(message: string)
    | AppError(message: string, statusCode: nat)
    | ResizeFailed
    | ClassifierFailed
    | TypeError(message: string)
    | Invalid(paths: set<string>)
    | StorageFailed

  /** What the file filter tells multer: `cb(null, true)` or `cb(err, false)`. */
  datatype FilterDecision = Accept | Reject(error: Error)

  /** The JSON bodies the handlers send themselves. */
  datatype Body =
    | Fail(message: string)
    | Prediction(prediction: Value)
    | SavedPrediction(message: string, saved: DetectionRecord)
    | DetectionList(detections: seq<DetectionRecord>)

  /** A handler's outcome: a response with a status code, or an error forwarded to `next`. */
  datatype Reply = Send(status: nat, body: Body) | Next(error: Error)

  /** True when `s` begins with `prefix`, character by character. */
  predicate StartsWith(s: string, prefix: string)
  {
    |prefix| <= |s| && forall i :: 0 <= i < |prefix| ==> s[i] == prefix[i]
  }

  /** The upload filter: only files whose MIME type starts with "image" are accepted. */
  function MulterFilter(mimetype: string): (d: FilterDecision)
    ensures d.Accept? <==> StartsWith(mimetype, "image")
    ensures d.Reject? ==> d.error == NotAnImage(NotAnImageMessage)
  {
    if "image" <= mimetype then Accept else Reject(NotAnImage(NotAnImageMessage))
  }

  /**
   * From the classifier's response body, the prediction payload
   * (`response.data.data`) and its `confidence` key. Reading `.confidence`
   * of a missing or null payload throws before any record exists.
   */
  function ClassifierPayload(data: Value): (r: Result<(Value, Option<Value>), Error>)
    ensures r.Success? <==> data.Obj? && "data" in data.fields && !data.fields["data"].Null?
    ensures r.Success? ==> r.value.0 == data.fields["data"]
    ensures r.Success? ==> r.value.1 == Prop(data.fields["data"], "confidence")
    ensures r.Failure? ==> r.error.TypeError?
  {
    match Member(Some(data), "data")
    case Failure(msg) => Failure(TypeError(msg))
    case Success(payload) =>
      match Member(payload, "confidence")
      case Failure(msg) => Failure(TypeError(msg))
      case Success(confidence) => Success((payload.value, confidence))
  }

  /**
   * `formData || body.formData || null`. The first two operands are the same
   * value (the destructured `formData` is `body.formData`), so the middle one
   * never decides: a falsy `formData` (missing, null, false, 0, "") is null.
   */
  function FormDataOf(body: Value): (v: Value)
  {
    var formData := Prop(body, "formData");
    if Present(formData) then formData.value else Null
  }

  /**
   * The manual-save payload: the `prediction` object to store and its
   * confidence. `req.body || {}` stands in for a missing body; a body without
   * a truthy `prediction` is refused with a 400 AppError.
   */
  function ManualPayload(body: Option<Value>): (r: Result<(Value, real), Error>)
    ensures r.Success? <==>
      body.Some? && body.value.Obj? && "prediction" in body.value.fields && Truthy(body.value.fields["prediction"])
    ensures r.Failure? ==> r.error == AppError(MissingPredictionMessage, 400)
    // every key of the body is kept, `formData` is the body's when truthy and null otherwise
    ensures r.Success? ==>
      var fields := body.value.fields;
      && r.value.0.Obj?
      && r.value.0.fields.Keys == fields.Keys + {"formData"}
      && (forall k :: k in fields && k != "formData" ==> r.value.0.fields[k] == fields[k])
      && r.value.0.fields["formData"] == (if "formData" in fields && Truthy(fields["formData"]) then fields["formData"] else Null)
    // confidence is `probability` when that is a number, 0 otherwise
    ensures r.Success? ==>
      var fields := body.value.fields;
      r.value.1 == (if "probability" in fields && fields["probability"].Num? then fields["probability"].n else 0.0)
  {
    var b := if Present(body) then body.value else Obj(map[]);
    var prediction := Prop(b, "prediction");
    var probability := Prop(b, "probability");
    if !Present(prediction) then
      Failure(AppError(MissingPredictionMessage, 400))
    else
      var shaped := Obj(b.fields["formData" := FormDataOf(b)]);
      var confidence := if probability.Some? && probability.value.Num? then probability.value.n else 0.0;
      Success((shaped, confidence))
  }

  /** The records owned by `owner`, in store order: `DetectionImages.find({ userId })`. */
  function OwnedBy(rs: seq<DetectionRecord>, owner: UserId): (r: seq<DetectionRecord>)
    ensures forall x :: x in r <==> x in rs && x.userId == owner
    ensures |r| <= |rs|
  {
    if rs == [] then []
    else (if rs[0].userId == owner then [rs[0]] else []) + OwnedBy(rs[1..], owner)
  }

  /** A new record appears at the end of its owner's listing and in no one else's. */
  lemma {:induction false} OwnedByAppend(rs: seq<DetectionRecord>, x: DetectionRecord, owner: UserId)
    ensures OwnedBy(rs + [x], owner) == OwnedBy(rs, owner) + (if x.userId == owner then [x] else [])
  {
    if rs != [] {
      assert (rs + [x])[1..] == rs[1..] + [x];
      OwnedByAppend(rs[1..], x, owner);
    }
  }

  /** Record `id` exists, belongs to `owner` and was stored with an image. */
  ghost predicate LinkedRecord(rs: seq<DetectionRecord>, id: RecordId, owner: UserId)
  {
    exists i :: 0 <= i < |rs| && rs[i].id == id && rs[i].userId == owner && rs[i].image.Image?
  }

  /** Appending a record keeps every existing record linkable. */
  lemma LinkedRecordKept(rs: seq<DetectionRecord>, x: DetectionRecord, id: RecordId, owner: UserId)
    requires LinkedRecord(rs, id, owner)
    ensures LinkedRecord(rs + [x], id, owner)
  {
    var i :| 0 <= i < |rs| && rs[i].id == id && rs[i].userId == owner && rs[i].image.Image?;
    assert (rs + [x])[i] == rs[i];
  }

  /**
   * The `DetectionImages` collection, the users' `detectionImages` id lists,
   * the id generator and a log of the buffers sent to the classifier.
   */
  class DetectionStore {
    var records: seq<DetectionRecord>
    var users: map<UserId, seq<RecordId>>
    var nextId: RecordId
    var posted: seq<Bytes>

    /**
     * Ids are unique and below `nextId`, and every id in a user's list names a
     * record that exists, belongs to that user and came from an upload: a
     * record is linked only after it was created, and only to its owner.
     */
    ghost predicate Valid()
      reads this
    {
      && (forall i :: 0 <= i < |records| ==> records[i].id < nextId)
      && (forall i, j :: 0 <= i < j < |records| ==> records[i].id != records[j].id)
      && (forall u, k :: u in users && 0 <= k < |users[u]| ==> LinkedRecord(records, users[u][k], u))
    }

    /** An empty collection and the given users, each with no detections yet. */
    constructor (userIds: set<UserId>)
      ensures Valid()
      ensures records == [] && nextId == 0 && posted == []
      ensures users == map u | u in userIds :: []
    {
      records := [];
      users := map u | u in userIds :: [];
      nextId := 0;
      posted := [];
    }

    /**
     * `save()`/`create()`: validates the fields, then appends the record with a
     * fresh id unless the storage write fails (`fails`). Users are untouched.
     */
    method Save(f: RecordFields, now: int, fails: bool) returns (r: Result<DetectionRecord, Error>)
      requires Valid()
      modifies this
      ensures Valid()
      ensures Build(old(nextId), now, f).Failure? ==> r == Failure(Invalid(Build(old(nextId), now, f).error.paths))
      ensures Build(old(nextId), now, f).Success? ==> r == if fails then Failure(StorageFailed) else Success(Build(old(nextId), now, f).value)
      ensures r.Success? ==> records == old(records) + [r.value] && nextId == old(nextId) + 1
      ensures r.Failure? ==> records == old(records) && nextId == old(nextId)
      ensures users == old(users) && posted == old(posted)
    {
      var built := Build(nextId, now, f);
      if built.Failure? {
        return Failure(Invalid(built.error.paths));
      }
      if fails {
        return Failure(StorageFailed);
      }
      r := Success(built.value);
      records := records + [r.value];
      nextId := nextId + 1;
      forall u, k | u in users && 0 <= k < |users[u]|
        ensures LinkedRecord(records, users[u][k], u)
      {
        assert LinkedRecord(old(records), users[u][k], u);
        LinkedRecordKept(old(records), r.value, users[u][k], u);
      }
    }

    /**
     * `$push` of `id` onto `owner`'s list; a user that does not exist is
     * left alone without an error.
     */
    method Push(owner: UserId, id: RecordId)
      requires Valid() && LinkedRecord(records, id, owner)
      modifies this
      ensures Valid()
      ensures users == if owner in old(users) then old(users)[owner := old(users)[owner] + [id]] else old(users)
      ensures records == old(records) && nextId == old(nextId) && posted == old(posted)
    {
      if owner in users {
        users := users[owner := users[owner] + [id]];
      }
    }

    /**
     * `processImage`: resize the upload, send it to the classifier, store a
     * record holding the ORIGINAL bytes, then link it to the caller and answer
     * with the prediction alone. `resize` stands for the image library,
     * `response` for the classifier's answer (`None` when the request
     * fails), `saveFails` and `pushFails` for storage faults.
     */
    method ProcessImage(caller: UserId, file: Option<Upload>, resize: Bytes -> Option<Bytes>,
                        response: Option<Value>, now: int, saveFails: bool, pushFails: bool)
      returns (reply: Reply)
      requires Valid()
      modifies this
      ensures Valid()
      // no file: 400, and no resize, classifier call, record or link
      ensures file.None? ==> reply == Send(400, Fail(NoFileMessage)) && unchanged(this)
      // a failed resize: nothing is sent and nothing stored
      ensures file.Some? && resize(file.value.buffer).None? ==> reply == Next(ResizeFailed) && unchanged(this)
      // otherwise the classifier receives exactly the resized buffer, once
      ensures file.Some? && resize(file.value.buffer).Some? ==>
        posted == old(posted) + [resize(file.value.buffer).value]
      // a failed classifier call: nothing stored
      ensures response.None? && file.Some? && resize(file.value.buffer).Some? ==>
        reply == Next(ClassifierFailed) && records == old(records) && users == old(users)
      // a response without a payload: TypeError, nothing stored
      ensures file.Some? && resize(file.value.buffer).Some? && response.Some? && ClassifierPayload(response.value).Failure? ==>
        reply.Next? && reply.error.TypeError? && records == old(records) && users == old(users)
      // an uncastable confidence fails validation: nothing stored
      ensures file.Some? && resize(file.value.buffer).Some? && response.Some? && ClassifierPayload(response.value).Success?
              && ConfidenceOf(ClassifierPayload(response.value).value.1).CastFailed? ==>
        reply == Next(Invalid({"confidence"})) && records == old(records) && users == old(users)
      // a storage fault on save: nothing stored
      ensures saveFails ==> records == old(records) && users == old(users)
      ensures file.Some? && resize(file.value.buffer).Some? && response.Some? && ClassifierPayload(response.value).Success?
              && ConfidenceOf(ClassifierPayload(response.value).value.1).Cast? && saveFails ==>
        reply == Next(StorageFailed)
      // at most one record is created, and only by a successful save
      ensures records == old(records) || (|records| == |old(records)| + 1 && records[..|old(records)|] == old(records))
      ensures records != old(records) <==>
        && file.Some? && response.Some? && resize(file.value.buffer).Some? && !saveFails
        && ClassifierPayload(response.value).Success?
        && ConfidenceOf(ClassifierPayload(response.value).value.1).Cast?
      ensures records != old(records) ==>
        && file.Some? && response.Some? && ClassifierPayload(response.value).Success?
        && var payload := ClassifierPayload(response.value).value;
           var record := records[|records| - 1];
           && record.id == old(nextId)
           && record.image == Image(file.value.buffer)
           && record.prediction == payload.0
           && ConfidenceOf(payload.1).Cast?
           && record.confidence == ConfidenceOf(payload.1).number
           && record.date == now
           && record.userId == caller
      // the owner's list changes only after the record exists, by one id at its end
      ensures users == old(users) ||
        (records != old(records) && caller in old(users) && !pushFails &&
         users == old(users)[caller := old(users)[caller] + [old(nextId)]])
      // a stored record is linked unless the push fails, and the push failure is forwarded
      ensures records != old(records) && caller in old(users) && !pushFails ==> users != old(users)
      ensures records != old(records) && pushFails ==> reply == Next(StorageFailed)
      // success answers 200 with the prediction payload, not the stored record
      ensures reply.Send? && reply.status == 200 <==> records != old(records) && !pushFails
      ensures reply.Send? && reply.status == 200 ==>
        reply.body == Prediction(ClassifierPayload(response.value).value.0)
    {
      if file.None? {
        return Send(400, Fail(NoFileMessage));
      }
      var resized := resize(file.value.buffer);
      if resized.None? {
        return Next(ResizeFailed);
      }
      posted := posted + [resized.value];
      if response.None? {
        return Next(ClassifierFailed);
      }
      var payload := ClassifierPayload(response.value);
      if payload.Failure? {
        return Next(payload.error);
      }
      var (predictionData, confidence) := payload.value;
      var saved := Save(RecordFields(Some(Image(file.value.buffer)), Some(predictionData), confidence, None, Some(caller)), now, saveFails);
      if saved.Failure? {
        return Next(saved.error);
      }
      assert records[|records| - 1] == saved.value;
      if pushFails {
        return Next(StorageFailed);
      }
      assert LinkedRecord(records, saved.value.id, caller) by {
        assert records[|records| - 1].id == saved.value.id;
      }
      Push(caller, saved.value.id);
      assert caller in old(users) ==> |users[caller]| == |old(users)[caller]| + 1;
      return Send(200, Prediction(predictionData));
    }

    /**
     * `savePrediction`: store a client-supplied prediction with a null image
     * and answer 201 with the stored record. No user's list is touched.
     */
    method SavePrediction(caller: UserId, body: Option<Value>, now: int, createFails: bool)
      returns (reply: Reply)
      requires Valid()
      modifies this
      ensures Valid()
      ensures users == old(users) && posted == old(posted)
      ensures ManualPayload(body).Failure? ==>
        reply == Next(AppError(MissingPredictionMessage, 400)) && records == old(records)
      ensures ManualPayload(body).Success? && createFails ==>
        reply == Next(StorageFailed) && records == old(records)
      ensures ManualPayload(body).Success? && !createFails ==>
        var payload := ManualPayload(body).value;
        var record := DetectionRecord(old(nextId), NoImage, payload.0, Some(payload.1), now, caller);
        && records == old(records) + [record]
        && reply == Send(201, SavedPrediction(SavedMessage, record))
    {
      var payload := ManualPayload(body);
      if payload.Failure? {
        return Next(payload.error);
      }
      var saved := Save(RecordFields(Some(NoImage), Some(payload.value.0), Some(Num(payload.value.1)), None, Some(caller)), now, createFails);
      if saved.Failure? {
        return Next(saved.error);
      }
      return Send(201, SavedPrediction(SavedMessage, saved.value));
    }

    /** `getDetections`: the caller's records, with 200 even when there are none. */
    method GetDetections(caller: UserId) returns (reply: Reply)
      ensures reply.Send? && reply.status == 200 && reply.body.DetectionList?
      ensures forall x :: x in reply.body.detections <==> x in records && x.userId == caller
      ensures reply.body.detections == OwnedBy(records, caller)
    {
      return Send(200, DetectionList(OwnedBy(records, caller)));
    }
  }
}
