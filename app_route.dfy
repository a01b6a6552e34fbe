/**
 * The richer single-image endpoint `POST /api/predict/image`: an ordered chain of
 * guards over the uploaded bytes, then face detection, classification and
 * re-encoding of the face crop. Every exit returns a response; nothing escapes.
 */
module AppRoute {
  import opened Py
  import opened Upload
  import Detector
  import opened ErrorHandler

  const SizeExceeded := "File size exceeded"
  const InvalidFormat := "Invalid image format"
  const NotRgb := "Image must be in RGB format"
  const Unreadable := "Cannot read image file"
  const ProcessingFailed := "Image processing failed : "
  const InternalError := "Internal server error"

  /** The messages of the five 400 replies: four guards and the detector's "Face not found". */
  const GuardMessages: seq<string> := [SizeExceeded, InvalidFormat, Unreadable, NotRgb, Detector.FaceNotFound]

  /** The calls into libraries the endpoint makes. Each may return or raise anything. */
  datatype Services = Services(
    // `np.array(Image.open(io.BytesIO(bytes)))`
    open: seq<byte> -> Raised<NdArray>,
    // the detection model's `process`, as the detector sees it
    process: Detector.Process,
    // `classificator.classify_image(face)`
    classify: Frame -> Raised<Prediction>,
    // `cvtColor`, `imencode('.jpg')` and base64: the face crop as a string
    encode: Frame -> Raised<string>)

  /** `ModelSuccessResponse(result=predictions, face_image=img_base64)` */
  datatype FacePayload = FacePayload(result: Prediction, faceImage: string)

  /** The third `try`: classify the face, then encode it; any failure is a 500 that
      carries the exception's text. */
  function ClassifyFace(face: Frame, s: Services): (r: Reply<FacePayload>)
    ensures r.Error? ==> r.status == 500 && ProcessingFailed <= r.message  // a prefix
    ensures r.Success? <==> s.classify(face).Returns? && s.encode(face).Returns?
    ensures r.Success? ==> r.payload == FacePayload(s.classify(face).value, s.encode(face).value)
  {
    match s.classify(face)
    case Raises(e) => Error(500, ProcessingFailed + Str(e))
    case Returns(predictions) =>
      match s.encode(face)
      case Raises(e) => Error(500, ProcessingFailed + Str(e))
      case Returns(image) => Success(FacePayload(predictions, image))
  }

  /** The body of the outer `try`: it returns a reply, or lets an exception escape
      that no inner handler catches. */
  function Body(bytes: seq<byte>, s: Services): (r: Raised<Reply<FacePayload>>)
    // every 400 the body returns is one of the guards' or the detector's messages
    ensures r.Returns? && r.value.Error? ==>
      (r.value.status == 400 && r.value.message in GuardMessages) ||
      (r.value.status == 500 && ProcessingFailed <= r.value.message)
    // only a decoder failure other than UnidentifiedImageError, or the detector's
    // RuntimeError, escapes to the outer handler
    ensures r.Raises? ==>
      !Oversized(bytes) && HasImageSignature(bytes) &&
      ((s.open(bytes).Raises? && !s.open(bytes).exc.UnidentifiedImageError? && r.exc == s.open(bytes).exc) ||
       (s.open(bytes).Returns? && IsRgb(s.open(bytes).value) && r.exc == RuntimeError(Detector.ModelRuntimeError)))
  {
    if Oversized(bytes) then Returns(Error(400, SizeExceeded))
    else if !HasImageSignature(bytes) then Returns(Error(400, InvalidFormat))
    else
      match s.open(bytes)
      case Raises(UnidentifiedImageError(_)) => Returns(Error(400, Unreadable))
      case Raises(e) => Raises(e)
      case Returns(image) =>
        if !IsRgb(image) then Returns(Error(400, NotRgb))
        else
          match Detector.Detection(image.frame, s.process(image.frame))
          case Raises(ValueError(m)) => Returns(Error(400, m))
          case Raises(e) => Raises(e)
          case Returns(face) => Returns(ClassifyFace(face, s))
  }

  /** `predict(file)`: the outer `except Exception` turns every escaping exception
      into a 500. */
  function Predict(bytes: seq<byte>, s: Services): (r: Reply<FacePayload>)
    ensures r.Error? ==> r.status == 400 || r.status == 500
    ensures r.Error? && r.status == 400 ==> r.message in GuardMessages
    ensures r.Error? && r.status == 500 ==>
      r.message == InternalError || ProcessingFailed <= r.message
  {
    match Body(bytes, s)
    case Returns(reply) => reply
    case Raises(_) => Error(500, InternalError)
  }

  /** The HTTP response FastAPI sends: errors in the uniform error shape, success as
      the serialised `ModelSuccessResponse`. */
  function Respond(reply: Reply<FacePayload>): (r: HttpResponse)
    ensures reply.Error? ==> ReadErrorResponse(r) == Some((reply.status, reply.message))
    ensures reply.Success? ==> r.status == 200 && ReadErrorResponse(r).None?
    // the `ModelSuccessResponse` fields, in declaration order
    ensures reply.Success? ==>
      && Keys(r.body) == ["status", "result", "face_image"]
      && Get(r.body, "status") == Some(JStr("success"))
      && Get(r.body, "result") ==
           Some(JObj([("class", JStr(reply.payload.result.className)), ("prob", JStr(reply.payload.result.prob))]))
      && Get(r.body, "face_image") == Some(JStr(reply.payload.faceImage))
  {
    match reply
    case Error(status, message) =>
      ErrorResponseRoundTrip(status, message);
      MakeErrorResponse(status, message)
    case Success(FacePayload(p, image)) =>
      var ms := [
        ("status", JStr("success")),
        ("result", JObj([("class", JStr(p.className)), ("prob", JStr(p.prob))])),
        ("face_image", JStr(image))];
      assert Find(ms[1..], "result") == Some(ms[1].1);
      assert Find(ms[1..][1..], "face_image") == Some(ms[2].1);
      assert Find(ms[1..], "face_image") == Some(ms[2].1);
      HttpResponse(200, JObj(ms))
  }

  /** The size guard fires exactly for buffers longer than 10,000,000 bytes; a buffer of
      exactly that length passes it. */
  lemma SizeGuard(bytes: seq<byte>, s: Services)
    ensures Predict(bytes, s) == Error(400, SizeExceeded) <==> Oversized(bytes)
  {
  }

  /** The signature guard fires exactly for buffers of permitted size that start with
      neither the JPEG nor the PNG prefix, so an oversized buffer with a bad signature
      reports the size error. */
  lemma SignatureGuard(bytes: seq<byte>, s: Services)
    ensures Predict(bytes, s) == Error(400, InvalidFormat) <==> !Oversized(bytes) && !HasImageSignature(bytes)
  {
  }

  /** The decode guard fires exactly when a well-formed upload cannot be identified
      as an image. */
  lemma DecodeGuard(bytes: seq<byte>, s: Services)
    ensures Predict(bytes, s) == Error(400, Unreadable) <==>
      !Oversized(bytes) && HasImageSignature(bytes) &&
      s.open(bytes).Raises? && s.open(bytes).exc.UnidentifiedImageError?
  {
  }

  /** The channel guard fires exactly when the decoded array is not rank 3 with three
      channels. */
  lemma ChannelGuard(bytes: seq<byte>, s: Services)
    ensures Predict(bytes, s) == Error(400, NotRgb) <==>
      !Oversized(bytes) && HasImageSignature(bytes) && s.open(bytes).Returns? && !IsRgb(s.open(bytes).value)
  {
  }

  /** The size and signature guards run before decoding: once either fires, the reply
      is the same whatever every later stage would do. */
  lemma RejectedBeforeDecoding(bytes: seq<byte>, s: Services, t: Services)
    requires Oversized(bytes) || !HasImageSignature(bytes)
    ensures Predict(bytes, s) == Predict(bytes, t)
  {
  }

  /** An upload that cannot be decoded, or decodes to a non-RGB array, is answered
      without the detector, the classifier or the encoder. */
  lemma RejectedBeforeDetection(bytes: seq<byte>, open: seq<byte> -> Raised<NdArray>, s: Services, t: Services)
    requires !Oversized(bytes) && HasImageSignature(bytes)
    requires open(bytes).Raises? || !IsRgb(open(bytes).value)
    ensures Predict(bytes, Services(open, s.process, s.classify, s.encode)) == Predict(bytes, Services(open, t.process, t.classify, t.encode))
  {
  }

  /** A detector ValueError becomes a 400 carrying its message, and the classifier and
      the encoder are never called. */
  lemma FaceNotFoundIs400(bytes: seq<byte>, s: Services, classify: Frame -> Raised<Prediction>, encode: Frame -> Raised<string>)
    requires !Oversized(bytes) && HasImageSignature(bytes) && s.open(bytes).Returns? && IsRgb(s.open(bytes).value)
    requires var frame := s.open(bytes).value.frame;
      s.process(frame) == Returns(None) || (s.process(frame).Raises? && s.process(frame).exc.TypeError?)
    ensures Predict(bytes, s) == Error(400, Detector.FaceNotFound)
    ensures Predict(bytes, s) == Predict(bytes, Services(s.open, s.process, classify, encode))
  {
    Detector.DetectionOutcomes(s.open(bytes).value.frame, s.process(s.open(bytes).value.frame));
  }

  /** Every other detector failure (including an empty list of detections) is a
      RuntimeError, which no inner handler catches: the reply is the generic 500. */
  lemma DetectorRuntimeErrorIs500(bytes: seq<byte>, s: Services)
    requires !Oversized(bytes) && HasImageSignature(bytes) && s.open(bytes).Returns? && IsRgb(s.open(bytes).value)
    requires var frame := s.open(bytes).value.frame;
      s.process(frame) == Returns(Some([])) || (s.process(frame).Raises? && !s.process(frame).exc.TypeError?)
    ensures Predict(bytes, s) == Error(500, InternalError)
  {
    Detector.DetectionOutcomes(s.open(bytes).value.frame, s.process(s.open(bytes).value.frame));
  }

  /** A failure to decode other than UnidentifiedImageError escapes the inner handler
      and becomes the generic 500. */
  lemma DecoderFaultIs500(bytes: seq<byte>, s: Services)
    requires !Oversized(bytes) && HasImageSignature(bytes)
    requires s.open(bytes).Raises? && !s.open(bytes).exc.UnidentifiedImageError?
    ensures Predict(bytes, s) == Error(500, InternalError)
  {
  }

  /** A success carries the classifier's output for the crop of the last detected
      box, and that crop's encoding. */
  lemma SuccessPayload(bytes: seq<byte>, s: Services)
    requires Predict(bytes, s).Success?
    ensures !Oversized(bytes) && HasImageSignature(bytes) && s.open(bytes).Returns? && IsRgb(s.open(bytes).value)
    ensures var frame := s.open(bytes).value.frame;
      && s.process(frame).Returns? && s.process(frame).value.Some? && s.process(frame).value.value != []
      && var boxes := s.process(frame).value.value;
         var face := Detector.Crop(frame, boxes[|boxes| - 1]);
         && s.classify(face).Returns? && s.encode(face).Returns?
         && Predict(bytes, s).payload == FacePayload(s.classify(face).value, s.encode(face).value)
  {
    var frame := s.open(bytes).value.frame;
    Detector.DetectionOutcomes(frame, s.process(frame));
  }

  /** The converse of `SuccessPayload`: an upload that passes every guard, in which
      the detector finds at least one face and classification and encoding of the last
      face's crop both return, is answered with that classification and encoding. */
  lemma ValidUploadSucceeds(bytes: seq<byte>, s: Services)
    requires !Oversized(bytes) && HasImageSignature(bytes) && s.open(bytes).Returns? && IsRgb(s.open(bytes).value)
    requires var frame := s.open(bytes).value.frame;
      s.process(frame).Returns? && s.process(frame).value.Some? && s.process(frame).value.value != []
    requires var frame := s.open(bytes).value.frame;
      var boxes := s.process(frame).value.value;
      var face := Detector.Crop(frame, boxes[|boxes| - 1]);
      s.classify(face).Returns? && s.encode(face).Returns?
    ensures var frame := s.open(bytes).value.frame;
      var boxes := s.process(frame).value.value;
      var face := Detector.Crop(frame, boxes[|boxes| - 1]);
      Predict(bytes, s) == Success(FacePayload(s.classify(face).value, s.encode(face).value))
  {
    var frame := s.open(bytes).value.frame;
    Detector.DetectionOutcomes(frame, s.process(frame));
  }

  /** A 500 with the "Image processing failed" prefix comes from classification or
      encoding of the detected face, and carries that failure's text. */
  lemma ProcessingFailureMessage(bytes: seq<byte>, s: Services)
    requires !Oversized(bytes) && HasImageSignature(bytes) && s.open(bytes).Returns? && IsRgb(s.open(bytes).value)
    requires Detector.Detection(s.open(bytes).value.frame, s.process(s.open(bytes).value.frame)).Returns?
    ensures var face := Detector.Detection(s.open(bytes).value.frame, s.process(s.open(bytes).value.frame)).value;
      && (s.classify(face).Raises? ==> Predict(bytes, s) == Error(500, ProcessingFailed + Str(s.classify(face).exc)))
      && (s.classify(face).Returns? && s.encode(face).Raises? ==>
            Predict(bytes, s) == Error(500, ProcessingFailed + Str(s.encode(face).exc)))
  {
  }
}
