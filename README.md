# Fake-face detector: upload validation, outcome mapping and face-crop geometry

A Dafny model of the parts of the fake-face detection service that are the
repository's own logic rather than calls into FastAPI, PIL, OpenCV, mediapipe or YOLO:

- the three copies of the image upload handler (`app/api/routes/predict.py`,
  `backend/api/app.py`, `api/model/predict.py`). Each is an ordered chain of guards over
  the uploaded bytes: declared content type (backend copy only), the 10,000,000-byte
  limit, the JPEG (`FF D8`, Table B.1 of ITU-T T.81) or PNG (`89 'P' 'N' 'G'`, section
  5.2 of the W3C PNG Recommendation, second edition) prefix, decoding, and the rank-3, 3-channel shape. Then
  come detection and classification. Each copy has its own exception handling that maps
  failures to 400 or 500;
- the uniform error body `{"status": "error", "detail": {"message": ...}}` built by
  `make_error_response`;
- `FaceDetector.detect`: the margin, clamp and Python-slice arithmetic that crops the
  frame around a detected face, the loop that keeps the last detection, and the mapping
  of its failures to "Face not found" and "Model runtime error".

Python exceptions are values (`Py.Exception`), and a block that may raise returns a
`Py.Raised<T>`: `Returns(v)` or `Raises(e)`. Each `try`/`except` becomes a match on that
value, so which handler catches what, what is re-raised and what is wrapped follows the
source clause by clause. Library calls are function-typed fields of a `Services` value
and may return or raise anything. These calls are PIL decoding with `np.array`, the
mediapipe model's `process`, the YOLO classifier, and the `cv2`/base64 re-encoding.
"A later stage is never reached" is stated as independence: the reply is the same
whichever later services are plugged in. The client-visible outcome is a
`Upload.Reply<T>`: `Success(payload)` or `Error(status, message)`.

The model follows the code where it departs from the service's documented behaviour:

- Only an absent detection list (`None`), or a TypeError raised while processing, is
  "Face not found" (400). An empty list leaves
  `cropped_frame` unbound and is reported as "Model runtime error". In the richer
  endpoint that RuntimeError is not caught as a ValueError, so the client gets
  `(500, "Internal server error")`.
- The crop has no explicit clamp against the frame's bottom and right edges, but
  Python/NumPy slicing clamps silently. The crop is therefore never larger than the
  frame, and it is empty when the origin lies past an edge.

Files: `py.dfy` (Python runtime behaviour: exceptions, `None`, `max`/`min`, `str`,
slicing), `upload.dfy` (shared guards and types), `error_handler.dfy`, `detector.dfy`,
`app_route.dfy`, `api_predict.dfy`, `backend_app.dfy`, and `variants.dfy` (agreement
between the copies).

## Model

| member | source | states |
|---|---|---|
| Py.Slice | app/services/detector.py:24 | `s[start:stop]` never raises and is never longer than `s` |
| Py.SliceElements | app/services/detector.py:24 | each slice element is the element at the clamped start plus its index, within bounds |
| Py.SliceOfNonNegativeBounds | app/services/detector.py:24 | with non-negative bounds a slice has `max(0, min(n, stop) - start)` elements taken from `start` on |
| Py.SlicePastEnd | app/services/detector.py:24 | a slice whose start is at or past the end is empty |
| Upload.SignatureBytes | app/api/routes/predict.py:26-27 | the signature test passes exactly for buffers starting `FF D8` or `89 50 4E 47`; shorter buffers fail |
| ErrorHandler.MakeErrorResponse | app/utils/error_handler.py:4-12 | HTTP status equals `status_code`; body keys are exactly `status`, `detail`; `status` is "error"; `detail` has the single key `message`, equal to `content` |
| ErrorHandler.ErrorResponseRoundTrip | app/utils/error_handler.py:4-12 | reading an error response back yields the status and message it was built from |
| ErrorHandler.ErrorResponseShapeIsExact | app/utils/error_handler.py:6-11 | any response that reads as an error response is exactly `make_error_response` of what was read: no extra keys |
| ErrorHandler.MakeErrorResponseInjective | app/utils/error_handler.py:4-12 | distinct status/message pairs give distinct responses |
| Detector.MarginAndExtent | app/services/detector.py:22-24 | for non-negative n, `int(n*0.125)` is `n div 8` and `int(n*1.25)` is `floor(5n/4)`; negative n mirror positive ones (truncation toward zero) |
| Detector.OriginClamped | app/services/detector.py:22-23 | the crop origin is never negative; it is the corner widened by the margin unless that corner is negative, then 0 |
| Detector.SubFrameElements | app/services/detector.py:24 | a two-axis NumPy slice is within the frame's dimensions and its pixels are frame pixels at the clamped offsets |
| Detector.SubFrameOfNonNegativeBounds | app/services/detector.py:24 | with non-negative bounds a two-axis slice has `max(0, min(H, bottom) - top)` rows of `max(0, min(W, right) - left)` pixels from `(top + i, left + j)` |
| Detector.CropWithinFrame | app/services/detector.py:20-24 | for every box the crop has no more rows than the frame and no row wider than the frame |
| Detector.CropPixelAtOffset | app/services/detector.py:20-24 | for every box, crop pixel (i, j) is the frame pixel (r0 + i, c0 + j) for the origin clamped into the frame |
| Detector.CropGeometry | app/services/detector.py:20-24 | for non-negative box sizes the crop has `max(0, min(H, y + floor(5h/4)) - y)` rows of `max(0, min(W, x + floor(5w/4)) - x)` pixels |
| Detector.CropPixels | app/services/detector.py:20-24 | for non-negative box sizes `crop[i][j] == frame[y+i][x+j]` |
| Detector.CropNotShiftedWhenClamped | app/services/detector.py:23-24 | when the top origin was clamped to 0 the crop still has `min(H, floor(5h/4))` rows: the extent is not shifted |
| Detector.CropPastEdge | app/services/detector.py:24 | an origin at or past the bottom edge gives an empty crop; at or past the right edge, empty rows |
| Detector.LastCropIsLastBox | app/services/detector.py:18-24 | the loop's final `cropped_frame` is the crop of the last box, or unchanged for no boxes |
| Detector.Detection | app/services/detector.py:15-31 | `detect` raises only `ValueError("Face not found")` or `RuntimeError("Model runtime error")` |
| Detector.DetectionOutcomes | app/services/detector.py:17-31 | "Face not found" exactly when detections are `None` or processing raised TypeError; a crop exactly when the list is non-empty, and then from its last box; "Model runtime error" exactly for an empty list or any other failure |
| Detector.Detect | app/services/detector.py:15-31 | the loop over detections returns exactly what `Detection` specifies |
| AppRoute.ClassifyFace | app/api/routes/predict.py:45-53 | a classification or encoding failure is a 500 prefixed "Image processing failed : "; success exactly when both succeed, carrying the classifier's output and the encoded crop |
| AppRoute.Body | app/api/routes/predict.py:22-53 | every reply the body returns is a 400 with one of the four guard messages or "Face not found", or a 500 with the processing prefix; the only exceptions that escape it are a decoder failure other than UnidentifiedImageError and the detector's RuntimeError |
| AppRoute.Predict | app/api/routes/predict.py:20-56 | every error status is 400 or 500; every 400 carries a guard message or "Face not found"; every 500 is "Internal server error" or carries the processing prefix |
| AppRoute.Respond | app/api/routes/predict.py:50 | errors are sent in the uniform error shape with their status and message; a success is a 200 whose body has exactly the keys `status`, `result`, `face_image`, with `status` "success", `result` the `class`/`prob` object of the classification and `face_image` the encoded crop |
| AppRoute.SizeGuard | app/api/routes/predict.py:23-24 | `(400, "File size exceeded")` exactly for buffers over 10,000,000 bytes; exactly 10,000,000 passes |
| AppRoute.SignatureGuard | app/api/routes/predict.py:23-28 | `(400, "Invalid image format")` exactly for buffers within the limit with neither prefix; the size error wins for oversized buffers |
| AppRoute.DecodeGuard | app/api/routes/predict.py:30-38 | `(400, "Cannot read image file")` exactly when a well-formed upload raises UnidentifiedImageError |
| AppRoute.ChannelGuard | app/api/routes/predict.py:30-35 | `(400, "Image must be in RGB format")` exactly when the decoded array is not rank 3 with 3 channels |
| AppRoute.RejectedBeforeDecoding | app/api/routes/predict.py:23-28 | after the size or signature guard fires, decoding, detection, classification and encoding do not affect the reply |
| AppRoute.RejectedBeforeDetection | app/api/routes/predict.py:30-38 | after a decode failure or a non-RGB array, detection, classification and encoding do not affect the reply |
| AppRoute.FaceNotFoundIs400 | app/api/routes/predict.py:40-43 | `detections` being None (or a TypeError) gives `(400, "Face not found")`, independent of the classifier and encoder |
| AppRoute.DetectorRuntimeErrorIs500 | app/api/routes/predict.py:40-43 | other detector failures, including an empty detection list, escape to the outer handler: `(500, "Internal server error")` |
| AppRoute.DecoderFaultIs500 | app/api/routes/predict.py:30-38 | a decoder failure other than UnidentifiedImageError gives `(500, "Internal server error")` |
| AppRoute.SuccessPayload | app/api/routes/predict.py:40-50 | a success passed every guard; its result and face image are the classifier's output and encoding of the last detected box's crop |
| AppRoute.ValidUploadSucceeds | app/api/routes/predict.py:23-50 | an upload that passes every guard, with at least one detection and a classification and encoding of the last box's crop that both return, is answered with exactly that payload |
| AppRoute.ProcessingFailureMessage | app/api/routes/predict.py:45-53 | a classifier or encoder exception gives a 500 carrying "Image processing failed : " and that exception's text |
| ApiPredict.Body | api/model/predict.py:41-80 | a return is `img_predict`'s result for a decoded RGB image past every guard; the guards raise only 400 HTTPExceptions; any other exception is the decoder's (not UnidentifiedImageError) or `img_predict`'s |
| ApiPredict.Predict | api/model/predict.py:16-88 | a success carries `img_predict`'s result for the decoded image; when the libraries raise no HTTPException, every refusal other than a 400 is the fixed 500 |
| ApiPredict.Handle | api/model/predict.py:82-88 | HTTPExceptions and return values pass unchanged; every other exception becomes the fixed 500; only HTTPExceptions escape |
| ApiPredict.SizeGuard | api/model/predict.py:41-46 | the first check: over 10,000,000 bytes gives the size 400, and (absent library HTTPExceptions) nothing else does |
| ApiPredict.SignatureGuard | api/model/predict.py:49-54 | after the size check, a missing JPEG/PNG prefix gives the format 400, and (absent library HTTPExceptions) only that does |
| ApiPredict.DecodeGuard | api/model/predict.py:56-71 | an unidentifiable image gives `(400, "Невозможно прочитать изображение")` |
| ApiPredict.ChannelGuard | api/model/predict.py:56-66 | the channel 400 raised inside the inner `try` reaches the client unchanged |
| ApiPredict.ReraiseOrWrap | api/model/predict.py:82-88 | an HTTPException from the body reaches the client unchanged; any other exception becomes 500 "Внутренняя ошибка сервера при обработке изображения" |
| ApiPredict.StatusCodes | api/model/predict.py:39-88 | when the libraries raise no HTTPException, every refusal is a 400 or a 500 |
| ApiPredict.SuccessPayload | api/model/predict.py:74-80 | a success passed every guard and carries exactly `img_predict`'s result |
| ApiPredict.ValidUploadSucceeds | api/model/predict.py:41-80 | an upload that passes every guard and for which `img_predict` returns is a success carrying that result |
| ApiPredict.RejectedBeforePrediction | api/model/predict.py:41-71 | once a guard fires, the prediction model does not affect the reply |
| BackendApp.Body | backend/api/app.py:71-111 | a return is `img_predict`'s result for a decoded RGB image past every guard; the guards raise only 400 HTTPExceptions; any other exception is the decoder's (not UnidentifiedImageError) or `img_predict`'s |
| BackendApp.Predict | backend/api/app.py:23-119 | a success had an accepted content type and carries `img_predict`'s result for the decoded image; when the libraries raise no HTTPException, every refusal other than a 400 is the fixed 500 |
| BackendApp.Handle | backend/api/app.py:113-119 | HTTPExceptions and return values pass unchanged; every other exception becomes the fixed 500 |
| BackendApp.Endpoint | backend/api/app.py:63-119 | only HTTPExceptions escape the endpoint |
| BackendApp.ContentTypeGuard | backend/api/app.py:63-67 | a declared type other than `image/jpeg`/`image/png` (or none) gives the 400 whatever the body and services are |
| BackendApp.SizeGuard | backend/api/app.py:71-76 | with an accepted type, over 10,000,000 bytes gives `(400, "Размер файла превышает 10MB")`, and (absent library HTTPExceptions) nothing else does |
| BackendApp.SignatureGuard | backend/api/app.py:79-84 | with an accepted type and size, a missing prefix gives `(400, "Некорректный формат изображения")`, and (absent library HTTPExceptions) only that does |
| BackendApp.DecodeAndChannelGuards | backend/api/app.py:86-101 | an unidentifiable image gives 400 "Невозможно прочитать изображение"; a non-RGB array gives the RGB 400 |
| BackendApp.ReraiseOrWrap | backend/api/app.py:113-119 | an HTTPException from the body reaches the client unchanged; any other exception, including from `img_predict`, becomes the fixed 500 |
| BackendApp.StatusCodes | backend/api/app.py:63-119 | when the libraries raise no HTTPException, every refusal is a 400 or the fixed-message 500 |
| BackendApp.SuccessPayload | backend/api/app.py:104-111 | a success passed every guard and carries exactly `img_predict`'s result |
| BackendApp.ValidUploadSucceeds | backend/api/app.py:63-111 | an upload of an accepted type that passes every guard and for which `img_predict` returns is a success carrying that result |
| BackendApp.AgreesWithRouterEndpoint | backend/api/app.py:69-119 | past the content-type check the backend copy answers every upload exactly as the router copy does |
| Variants.GuardStatusesAgree | app/api/routes/predict.py:23-38 | an upload failing the size, signature, decode or channel guard is refused by the richer and the router copies with the same status; that status is 400 except for a non-PIL decoder failure |

## Left out

- Floating point: the products `relative * frame.shape` (app/services/detector.py:20-23) are taken as inputs (`Detector.PixelBox`). `int(n * 0.125)` and `int(n * 1.25)` are modelled as exact products truncated toward zero. This matches IEEE doubles for every integer below about 2^50.
- Confidence formatting `f"{confidence:.2%}"` and the classifier's internals: the `Prediction` strings come from the classifier service unexamined.
- PIL decoding, `np.array`, `cv2.cvtColor`, `cv2.imencode` and base64 encoding are library calls. They are service functions that may return or raise anything. A decoded array is its shape plus its contents along the first two axes; the model does not tie the two together.
- The YOLO classifier, the mediapipe model and the loading of weights files are foreign calls, modelled as service functions.
- `await file.read()`, FastAPI routing, CORS, health checks and `api/app.py` are I/O or framework plumbing with no validation of their own.
- FastAPI's serialisation of an escaping HTTPException (`{"detail": ...}`) is framework behaviour. `Upload.Served` is a definition of that rendering, reduced to the status and the detail, and models no repository code.
- The successes of `backend/api/app.py` and `api/model/predict.py` are the repository's own dict `{"status": "success", "result": detections}` (backend/api/app.py:106-111, api/model/predict.py:75-80). They are modelled as `Upload.Reply.Success(result)`: the `"status"` key and the JSON body are left out. Only the richer copy's responses are modelled down to the JSON body.
- The video pipeline and its fake-percentage aggregation are described for the service but have no code in the files modelled here.
- Pydantic validation of `ModelSuccessResponse` is mirrored only as the `AppRoute.FacePayload` datatype.
- Everything is a value: the frame is a sequence of rows and cannot be aliased or mutated, so "the frame is not modified" holds by construction rather than by a frame condition.
- ApiPredict.SizeGuard: the converse direction assumes the decoder and `img_predict` raise no HTTPException of their own. Otherwise a library HTTPException with the same status and detail would be indistinguishable.
- ApiPredict.SignatureGuard: the converse direction carries the same assumption as the size guard.
- BackendApp.SizeGuard: the converse direction carries the same assumption.
- BackendApp.SignatureGuard: the converse direction carries the same assumption.
