# Face-detection upload: eye-pair selection and client-side gating

This project models the two pieces of sequential logic in a small face-detection web app.

- **Server (`app.py`, `upload()`).** For each face box the detector finds, the handler sorts the face's eye boxes by their top edge. It scans adjacent pairs in that order and takes the first pair whose top edges are less than 10 pixels apart. For that pair it emits one record: the two eye centres in image coordinates (using floor division), the eye distance, and the face box. A face with fewer than two eyes, or with no level adjacent pair, contributes nothing. There is no fallback.
- **Browser (`static/js/main.js`).** Before any request, the submit handler checks that a file is chosen and that it is at most 16 MiB. It turns the loading indicator on only after both checks pass, and always turns it off at the end. It decides whether the response is a failure using `response.ok` and the truthiness of `data.error`. The preview scale is `min(1, 800 / width)`. Detected boxes and landmarks are drawn multiplied by a scale. A per-face breakdown is built from the unscaled values.

Modules:

- `Wrappers` (`wrappers.dfy`): `Option` and `Result`.
- `EyePairs` (`eye_pairs.dfy`): the server loop. The cascade detectors are replaced by their outputs: a sequence of `Detection(face, eyes)`, with eye boxes relative to the face corner. `SortByY` models Python's `sorted(eyes, key=lambda e: e[1])`. It is proved sorted, a permutation, and stable. Those three properties fix the order, so it is the order Python produces. `FirstLevelPair` is the scan. `FaceResult` is what one face contributes. `Results` is the handler's accumulated list. `ScanFace` is the inner loop with its early `break`, proved equal to `FaceResult`. `Upload` is the outer loop, proved equal to `Results`.
- `Client` (`client.dfy`): the browser. The decisions are pure functions: `ValidateFile`, `ResponseOutcome`, `PreviewScale`, `Details`. The DOM state the handlers change is the class `Page`. Its `steps` field records the submit handler's visible steps in the order they happen. Its `canvas` field records the marks drawn.

The eye selector is as simple as the handler's loop. The threshold is 10, and the first level adjacent pair in y order wins. There is no smallest-difference search and no fallback. Nothing orders the pair by x: the left eye is the earlier one in y order, and `LeftEyeMayLieRight` shows that it can lie to the right.

## Model

| member | source | states |
|---|---|---|
| EyePairs.SortByY | app.py:47 | the eyes, ordered by top edge (adjacent and hence all pairs), as a permutation of the input |
| EyePairs.SortByYIsStable | app.py:47 | boxes that share a top edge keep their input order, as Python's stable `sorted` does |
| EyePairs.SortedByYOrdersAll | app.py:47 | sorted by neighbours means every earlier box's top edge is at or above every later one's |
| EyePairs.InsertByY | app.py:47 | one insertion step of the sort adds exactly the inserted box to the multiset, and the result starts with the inserted box or the old first box |
| EyePairs.InsertByYSorted | app.py:47 | inserting into a sorted sequence keeps it sorted |
| EyePairs.SortByYKeepsSorted | app.py:47 | sorting leaves already sorted eyes unchanged, so the sort is idempotent |
| EyePairs.FirstLevelPair | app.py:50-55 | the index found is the first adjacent pair with `abs(dy) < 10`; all earlier pairs fail the test; when none is found, no adjacent pair passes |
| EyePairs.FirstLevelPairFinds | app.py:50-55 | the scan stops at the first level pair whenever it starts at or before it |
| EyePairs.FirstLevelPairMisses | app.py:50-55 | the scan finds nothing when no adjacent pair is level |
| EyePairs.FaceResultNone | app.py:45-55 | a face yields nothing exactly when it has fewer than two eyes or no adjacent pair in y order is level (no fallback) |
| EyePairs.FaceResult | app.py:45-75 | one face's contribution: nothing below two eyes, otherwise the sorted eyes are scanned and the first level pair is emitted; characterised by `FaceResultNone` (when nothing is emitted) and `FaceResultAt` (what is emitted) |
| EyePairs.EyeCentre | app.py:57-58 | an eye centre is `(x + ex + ew//2, y + ey + eh//2)`; the contract states that it lies within the eye box and that twice its offset from the box corner is the box size or one less (floor division) |
| EyePairs.Emit | app.py:57-73 | the record for an accepted pair: both centres, their squared distance and the face box; its fields are stated in `FaceResultAt` |
| EyePairs.FaceResultAt | app.py:55-73 | at the first level pair `i`, the record's left eye is box `i` and its right eye box `i+1`, with left `ey` ≤ right `ey` and gap < 10; each centre is `(x + ex + ew//2, y + ey + eh//2)`; the distance is the squared centre distance; the face fields are copied unchanged |
| EyePairs.SquaredDistance | app.py:61-62 | the squared eye distance is non-negative, and zero exactly when the centres coincide |
| EyePairs.SquaredDistanceSymmetric | app.py:61-62 | the squared eye distance does not depend on which centre comes first |
| EyePairs.Results | app.py:36-37 | the handler's list has at most one record per face |
| EyePairs.ResultsFollowFaces | app.py:37-75 | one producing face per record, each a valid face index; the k-th record is exactly what the k-th producing face yields; producers strictly increase, so records keep face order and no face contributes twice; a face is a producer exactly when it yields a record |
| EyePairs.ScanFace | app.py:45-75 | the scan of one face, with its early `break`, returns exactly `FaceResult` of that face |
| EyePairs.Upload | app.py:36-75 | the nested loop with its early `break` builds exactly `Results` of the detections |
| EyePairs.LeftEyeMayLieRight | app.py:57-58 | a worked face whose left eye lies to the right of its right eye: nothing orders the pair by x |
| EyePairs.FirstPairNotClosest | app.py:50-55 | a worked face with top edges 0, 9 and 10: the pair at 0 and 9 wins, with centres (5, 5) and (45, 14), although the later pair is more level |
| EyePairs.NoFallback | app.py:55 | a worked face whose two eyes are exactly 10 apart yields nothing |
| Client.PreviewScale | static/js/main.js:34-35 | the scale lies in (0, 1] and `width * scale ≤ 800`; it is 1 when `width ≤ 800` (no upscaling), and `width * scale` is exactly 800 otherwise; a zero width gives 1, as JavaScript's `min(1, Infinity)` does |
| Client.NarrowImageIsNotRescaled | static/js/main.js:34-35 | for an image no wider than 800, scaling leaves every box unchanged |
| Client.ScaleBox | static/js/main.js:51-56 | the box passed to `strokeRect`: each of x, y, width and height times the scale; `ScaleBoxInverse` and `NarrowImageIsNotRescaled` state what it preserves |
| Client.ScalePoint | static/js/main.js:62 | the arc centre: a landmark's x and y times the scale; `ScalePointInverse` states that nothing is lost |
| Client.ScaleBoxInverse | static/js/main.js:51-56 | each of x, y, width and height is multiplied by the same factor on its own, so scaling back by the reciprocal restores the box |
| Client.ScalePointInverse | static/js/main.js:62 | a landmark's x and y are multiplied by the factor, so scaling back restores the point |
| Client.LandmarkOps | static/js/main.js:60-64 | one dot per landmark in landmark order, each at the scaled point with radius 2; `LandmarkOpsAreDots` states that it strokes nothing and its dots are the scaled landmarks |
| Client.FaceOps | static/js/main.js:47-65 | one face's marks: the scaled box, then its landmark dots; used by `DrawnBoxes`, `DrawnDots` and `DetailsDescribeDrawing` |
| Client.DrawOps | static/js/main.js:47-65 | every face's marks, in face order; `DrawnBoxes` and `DrawnDots` characterise its boxes and dots |
| Client.DrawnBoxes | static/js/main.js:47-56 | the boxes stroked are the faces' boxes, each scaled, one per face, in face order |
| Client.DrawnDots | static/js/main.js:58-64 | the dots drawn are every landmark, scaled by the same factor as the boxes, in face order and then landmark order |
| Client.Details | static/js/main.js:68-75 | the `faces.map`: entry `index` is numbered `index + 1` and holds the unscaled position, size and landmark count; `DetailsDescribeDrawing` relates it to the drawing |
| Client.DetailsDescribeDrawing | static/js/main.js:68-75 | the breakdown has one entry per face in input order, numbered `index + 1`; it reports the unscaled box (whose scaled copy is the drawn box) and as many landmarks as dots drawn for that face |
| Client.Page.DrawDetectionResults | static/js/main.js:46-79 | the two `forEach` loops append exactly `DrawOps(faces, scale)` to the canvas; the breakdown becomes `Details(faces)` and the result panel is shown |
| Client.Page.DrawFace | static/js/main.js:47-65 | one face's callback appends its scaled box and then one dot per scaled landmark, exactly `FaceOps(face, scale)` |
| Client.ValidateFile | static/js/main.js:84-95 | no file fails with "画像を選択してください"; a file over `16*1024*1024` bytes fails with the size message; every other file, including one of exactly 16 MiB, passes unchanged |
| Client.ResponseOutcome | static/js/main.js:117-123 | the outcome is success exactly when the status is ok and `data.error` is falsy; a truthy `data.error` is the message whatever the status; otherwise a non-ok status fails with "アップロードに失敗しました" |
| Client.Settle | static/js/main.js:110-123 | how the request settles: a rejected `fetch` or an unreadable body fails with its message, and a response is judged by `ResponseOutcome`; `SubmitShowsOutcome` states how the outcome is shown |
| Client.SubmitSteps | static/js/main.js:82-138 | the handler's visible steps: one error step for a rejected file, otherwise loading on, `RequestSteps`, loading off; `RejectedFileSendsNothing`, `LoadingBracketsTheRequest` and `SubmitShowsOutcome` characterise it |
| Client.RequestSteps | static/js/main.js:97-134 | the steps while loading is on: hide the error and the result, preview, upload, then either schedule the drawing or show the failure; characterised through `SubmitSteps` by `LoadingBracketsTheRequest` and `SubmitShowsOutcome` |
| Client.RejectedFileSendsNothing | static/js/main.js:84-95 | a file that fails a check produces only the error message: no loading indicator and no request |
| Client.LoadingBracketsTheRequest | static/js/main.js:97-137 | once both checks pass, loading goes on first and off last whatever the reply; it toggles nowhere else; the request is sent exactly once, while loading is on |
| Client.SubmitShowsOutcome | static/js/main.js:117-136 | an error is shown exactly when the submission fails, with the failure's message; on success the faces are handed to the drawing and no error is shown |
| Client.SizeLimitIsInclusive | static/js/main.js:92-95 | a file of exactly 16 MiB is uploaded, and one byte more is rejected with the size message |
| Client.Page.Submit | static/js/main.js:82-138 | the handler's state changes follow `SubmitSteps` in order; loading ends off after a valid file; the result panel is hidden; the error box shows the failure message, or is hidden on success |
| Client.Page.Request | static/js/main.js:97-134 | the `try` block and its `catch` hide the error box and the result panel, preview and send the file, then schedule the drawing or show the failure, as `RequestSteps` says; loading is left as it was |
| Client.Page.ShowErrorMessage | static/js/main.js:12-18 | the error box shows the message; nothing else changes |
| Client.Page.ToggleLoading | static/js/main.js:21-27 | the loading indicator takes the requested state; nothing else changes |
| Client.Page.constructor | static/js/main.js:1-9 | the page holding the elements looked up here; its initial state, with the indicator, error box and result panel hidden and nothing drawn, is assumed, since the markup that sets it is not part of this model |

## Left out

- Haar-cascade face and eye detection, `imdecode` and grayscale conversion (app.py:12-13, 27-34, 42) are library calls. Their outputs are the model's input.
- Flask routing, `jsonify`, the `status`/`message` envelope, template rendering and the exception-to-500 wrapper (app.py:15-23, 78-91) are framework I/O.
- EyePairs.FaceResultAt: the model keeps the squared distance as an unbounded integer. The source reports `float(np.sqrt(...))`, so floating-point square roots are not modelled.
- Coordinates are unbounded integers on the server, so numpy's int32 arithmetic is not modelled. In the browser the scale and all coordinates are exact reals. `PreviewScale`'s bound `width * scale <= 800`, `ScaleBoxInverse` and `ScalePointInverse` hold for exact arithmetic, not for JavaScript numbers, which round at ordinary sizes (for example, 1060 times 800/1060 is slightly above 800).
- Client.Page.Submit: the two `await`s (static/js/main.js:110, 115) are treated as atomic, so each submission runs to its end before anything else happens. The form is never disabled, so a second submission can start while the first is pending, and the first's `finally` then turns loading off during the second's request. Overlapping submissions are not modelled. `LoadingBracketsTheRequest` and Submit's final `loading == false` describe one submission in isolation.
- DOM access, `setTimeout` auto-dismiss of the error (5000 ms), `fetch`, `FormData` and `URL.createObjectURL` are browser I/O. The asynchronous `Image.onload` callbacks are also browser I/O. The submit handler's `displayPreview` call and its scheduled drawing are recorded as the steps `Preview` and `ScheduleDraw`. The drawing itself is `Page.DrawDetectionResults`, called with the scale as a parameter.
- Canvas styles (`strokeStyle`, `lineWidth`, `fillStyle`), `beginPath` and the arc angles are not recorded. Only the coordinates and the dot radius passed to the canvas are.
- The canvas size assignment in `displayPreview` (static/js/main.js:36-37, which the canvas truncates to integers) is left out. So is the recomputed scale `previewCanvas.width / img.width` (static/js/main.js:128). Both depend on host numeric conversion.
- The file-input change handler (static/js/main.js:141-147) only repeats the preview and hides the result panel. It is not modelled.
- A `data.error` that is truthy but not a string is not modelled: JavaScript would use its string form as the message. A missing `data.faces`, which would fail later inside the asynchronous callback, is not modelled either. A JSON body that is not an object is not modelled.
- The client and server disagree on the wire format. The client sends the field `file` and reads `data.faces`. The server reads `image` and returns `results`. Each side is modelled against its own code, and the two are not reconciled.
