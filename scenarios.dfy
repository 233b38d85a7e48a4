/**
 * A client of the store: what the handlers' contracts alone let a caller
 * conclude about an upload, a refused manual save and the listings.
 */
module Scenarios {
  import opened Wrappers
  import opened Js
  import opened DetectionModel
  import opened DetectionController

  method UploadThenList(image: Bytes, resized: Bytes)
  {
    var alice, bob := 1, 2;
    var store := new DetectionStore({alice, bob});

    // no file: 400 and nothing happens
    var reply := store.ProcessImage(alice, None, _ => Some(resized), None, 0, false, false);
    assert reply.status == 400 && store.records == [] && store.posted == [];

    // the classifier answers { data: { label: "malignant", confidence: 0.87 } }
    var payload := Obj(map["label" := Str("malignant"), "confidence" := Num(0.87)]);
    var response := Obj(map["data" := payload]);
    reply := store.ProcessImage(alice, Some(Upload("image/jpeg", image)), _ => Some(resized), Some(response), 5, false, false);
    assert store.posted == [resized];
    assert reply == Send(200, Prediction(payload));
    assert |store.records| == 1;
    var record := store.records[0];
    assert record.image == Image(image) && record.confidence == Some(0.87) && record.userId == alice;
    assert store.users[alice] == [record.id] && store.users[bob] == [];

    // a manual save without `prediction`: 400 and nothing stored
    reply := store.SavePrediction(bob, Some(Obj(map[])), 6, false);
    assert reply == Next(AppError(MissingPredictionMessage, 400)) && |store.records| == 1;

    // bob has no records: still a 200 with an empty list
    reply := store.GetDetections(bob);
    assert reply.status == 200 && reply.body.detections == [];
    reply := store.GetDetections(alice);
    assert reply.body.detections == [record];
  }
}
