# Kidney-cancer detection backend: the detection core in Dafny

This project models the detection core of the kidney-cancer backend, an Express
server. A logged-in user uploads an image. The server resizes it, sends it to an
external classifier and stores the returned prediction as a `DetectionImages`
record. It then appends the record's id to the user's `detectionImages` list and
returns the prediction. A second handler stores a prediction that the client
supplies itself. A third lists the caller's records. The project also models
three small decisions made when the server starts: the CORS allowlist, the CORS
origin check and the password substitution in the MongoDB connection string.

Files:

- `wrappers.dfy`: `Option` (also used for JavaScript's `undefined`) and `Result`.
- `js.dfy`: JSON-like JavaScript values, truthiness and property access. Reading
  a key of `null` or `undefined` throws a TypeError.
- `detection_model.dfy`: the record schema. `Build` creates and validates a
  record and fills in every default.
- `detection_controller.dfy`: the upload filter and the payload shaping, both
  pure. `DetectionStore` is a class that stands for the collection, the users'
  id lists and the classifier. Its methods are the three handlers.
- `server.dfy`: the allowlist, the origin callback and the connection string.
- `scenarios.dfy`: a client of the store. It shows what a caller can conclude
  from the handlers' contracts alone.

Outside effects become parameters:

- The image resize is a function `Bytes -> Option<Bytes>`.
- The classifier's answer is an `Option<Value>`. `None` means the HTTP request
  failed.
- A storage fault on a save or on a `$push` is a boolean.
- `Date.now()` is the integer `now`.
- Environment variables are `Option<string>`.

The store records every buffer sent to the classifier in `posted`. This makes
"no classifier call" a statement about the new state.

Behaviour of the code worth noting:

- `findByIdAndUpdate` on a missing user changes nothing and raises no error, so
  the upload still answers 200.
- `savePrediction` never adds the record to the user's list.
- The record stores the original upload `req.file.buffer`, not the resized
  buffer.
- `formData || body.formData || null` turns every falsy `formData` into null:
  missing, null, `false`, `0` and `""` all do.

`DetectionStore.Valid` is the store's invariant:

- Record ids are unique.
- Every id in a user's list names an existing record that belongs to that user
  and holds an image.

So a record is never linked before it is created, and it is never linked to
someone else.

## Model

| member | source | states |
|---|---|---|
| `DetectionController.MulterFilter` | controllers/detectionController.js:13-19 | accepts exactly when the MIME type starts with "image"; otherwise rejects with "Not an image! Please upload only images." |
| `DetectionController.ClassifierPayload` | controllers/detectionController.js:66-71 | succeeds exactly when the response body is an object whose `data` key holds a non-null value; gives that payload and its `confidence` key; otherwise a TypeError (thrown before any record exists) |
| `DetectionController.ManualPayload` | controllers/detectionController.js:113-128 | succeeds exactly when the body is an object with a truthy `prediction`, otherwise the 400 AppError "Missing 'prediction' in request body"; the stored prediction keeps every body key, with `formData` set to the body's when truthy and null otherwise; confidence is `probability` when a number, else 0 |
| `DetectionController.OwnedBy` | controllers/detectionController.js:145-147 | a record is listed exactly when it is in the store and owned by the caller |
| `DetectionController.OwnedByAppend` | controllers/detectionController.js:144-155 | storing a record adds it to its owner's listing (at the end, in the model's insertion order) and leaves every other owner's listing unchanged |
| `DetectionController.DetectionStore.Save` | controllers/detectionController.js:75 | validation failure or storage fault stores nothing; otherwise the built record, with a fresh id, is appended; users' lists untouched |
| `DetectionController.DetectionStore.Push` | controllers/detectionController.js:78-80 | appends the id to the end of the owner's list only; a missing owner is a silent no-op; keeps the linked-after-created invariant |
| `DetectionController.DetectionStore.ProcessImage` | controllers/detectionController.js:35-93 | no file: 400 `fail` and no change at all; a failed resize: nothing sent or stored; otherwise the classifier gets exactly the resized buffer; a record is created exactly when classification, payload, validation and save all succeed, and it holds the original upload bytes, the payload, its confidence, `now` and the caller; a storage fault on save is forwarded with nothing stored; the caller's list gains that id at its end only afterwards and no other list changes; a push failure is forwarded and the record stays; success answers 200 with the prediction payload only |
| `DetectionController.DetectionStore.SavePrediction` | controllers/detectionController.js:111-142 | a missing or falsy `prediction` is a 400 AppError and stores nothing; otherwise appends a record with a null image, the shaped payload and the numeric confidence, answers 201 with it, and never changes a user's list |
| `DetectionController.DetectionStore.GetDetections` | controllers/detectionController.js:144-158 | always 200, listing exactly the caller's records (possibly none) |
| `DetectionModel.CastNumber` | models/detectionImagesModel.js:12-15 | numbers are stored unchanged, booleans as 1 or 0, null and "" as null; only arrays, objects and non-empty strings fail the Number cast |
| `DetectionModel.FailedPaths` | models/detectionImagesModel.js:12-24 | `userId` fails exactly when missing; `confidence` fails exactly when its cast fails |
| `DetectionModel.Build` | models/detectionImagesModel.js:3-25 | a record without an owner is refused; image and prediction default to null, confidence to 0, date to the creation time; a supplied image, prediction or date is stored as given; a supplied confidence is stored as its Number cast (numbers unchanged, booleans as 1 or 0, null and "" as null); accepted exactly when no validator fails, and a refusal names every failing path; an owned record with a numeric or absent confidence is always accepted |
| `Server.KeepTruthy` | server.js:32-36 | keeps exactly the set, non-empty entries; empty exactly when every entry is unset or empty |
| `Server.AllowedOrigins` | server.js:32-36 | is, in order, the two localhost origins followed by `FRONTEND_URL` when it is set and non-empty; never holds an empty entry |
| `Server.IndexOf` | server.js:43 | -1 exactly when absent; otherwise the first position holding the origin |
| `Server.CorsOrigin` | server.js:39-49 | no origin is always allowed; an origin is allowed exactly when empty or in the allowlist; a refusal carries the CORS policy message |
| `Server.FindFrom` | server.js:133-136 | -1 exactly when the placeholder does not occur; otherwise its first occurrence |
| `Server.Replace` | server.js:133-136 | a string with no occurrence is returned unchanged; otherwise the first occurrence becomes the expanded replacement and the text before and after it is kept |
| `Server.DatabaseUri` | server.js:133-136 | fails exactly when `MONGO_URI` is unset |
| `Server.ExpandLiteral` | server.js:133-136 | a replacement without `$` is inserted literally |
| `Server.DatabaseUriWithoutPlaceholder` | server.js:133-136 | a connection string without the placeholder is used unchanged, whatever the password |
| `Server.DatabaseUriSubstitutes` | server.js:133-136 | with a `$`-free password, the connection string is the configured one with its first placeholder replaced by the password, the text before and after it unchanged |
| `Server.ExpandLiteralPrefix` | server.js:133-136 | a `$`-free start of the replacement is copied literally before the rest is expanded |
| `Server.ExpandDollarAmpersand` | server.js:133-136 | in a replacement `x + "$&" + y` with no other `$`, the `$&` becomes the matched text |
| `Server.DollarAmpersandInPassword` | server.js:133-136 | a password `x + "$&" + y` with no other `$` puts the placeholder text itself between `x` and `y` (JavaScript replacement patterns) |

## Left out

- Image resizing and JPEG encoding are a foreign library doing pixel work. They are the abstract `resize` parameter.
- The multipart request, the `Date.now()` file name and the classifier's URL are network I/O. Only the outcome of the call is modelled.
- Mongoose itself, ObjectId generation and the connection are replaced by the in-memory store. Ids come from a counter.
- The atomicity of `$push` under concurrent requests is not modelled. Each handler runs sequentially.
- `handleMulterError`, multer's storage setup and the route tables are framework plumbing. The filter is modelled, but how multer passes its rejection on is not.
- The Express middleware stack, the server listen call, signal and rejection handlers, and logging are process I/O. They are not modelled.
- `getDetections` has no try/catch, so a failing query is an unhandled rejection. The model's query cannot fail. Its `next()` branch cannot be reached, because an array is always truthy.
- `DetectionModel.CastNumber`: numeric strings such as "0.5" are refused here. Mongoose would parse them. Number parsing is not modelled.
- `DetectionController.OwnedByAppend`: `DetectionImages.find({ userId })` has no sort, and MongoDB does not promise insertion order. The model fixes the listing in insertion order, so the "at the end of the listing" part holds for the model, not for the program.
- JavaScript NaN and the order of object keys are not represented. Numbers are reals, and objects are maps.
- `DetectionController.DetectionStore.GetDetections`: the Mongoose document serialisation in the JSON reply is not modelled. The reply carries the records themselves.
