/**
 * The router endpoint `POST /api/predict/`: the same guard chain as the other
 * handlers, each guard raising an HTTPException, with no content-type check. The
 * outer handler re-raises HTTPExceptions and wraps everything else as a 500.
 */
module ApiPredict {
  import opened Py
  import opened Upload

  const SizeExceeded := "Размер файла превышает 10MB"
  const InvalidFormat := "Некорректный формат изображения"
  const NotRgb := "Изображение должно быть в цветном формате (RGB)"
  const Unreadable := "Невозможно прочитать изображение"
  const InternalError := "Внутренняя ошибка сервера при обработке изображения"

  /** The calls into libraries the endpoint makes. Each may return or raise anything. */
  datatype Services = Services(
    // `np.array(Image.open(io.BytesIO(bytes)))`
    open: seq<byte> -> Raised<NdArray>,
    // `detector.img_predict(image_np)`: the classifier applied to the whole image
    imgPredict: NdArray -> Raised<Prediction>)

  /** The body of the outer `try`. The inner `try` catches only UnidentifiedImageError,
      so the HTTPException of the channel guard passes through it. */
  function Body(bytes: seq<byte>, s: Services): (r: Raised<Prediction>)
    // a return is the prediction for a decoded RGB image that passed every guard
    ensures r.Returns? ==>
      && !Oversized(bytes) && HasImageSignature(bytes) && s.open(bytes).Returns? && IsRgb(s.open(bytes).value)
      && s.imgPredict(s.open(bytes).value) == r
    // the guards raise only HTTPExceptions with status 400; anything else comes from a library
    ensures r.Raises? && r.exc.HttpException? && LibrariesRaiseNoHttp(bytes, s) ==> r.exc.statusCode == 400
    ensures r.Raises? && !r.exc.HttpException? ==>
      || (s.open(bytes).Raises? && !s.open(bytes).exc.UnidentifiedImageError? && r.exc == s.open(bytes).exc)
      || (s.open(bytes).Returns? && s.imgPredict(s.open(bytes).value) == r)
  {
    if Oversized(bytes) then Raises(HttpException(400, SizeExceeded))
    else if !HasImageSignature(bytes) then Raises(HttpException(400, InvalidFormat))
    else
      match s.open(bytes)
      case Raises(UnidentifiedImageError(_)) => Raises(HttpException(400, Unreadable))
      case Raises(e) => Raises(e)
      case Returns(image) =>
        if !IsRgb(image) then Raises(HttpException(400, NotRgb))
        else s.imgPredict(image)
  }

  /** `except HTTPException: raise` then `except Exception: raise HTTPException(500, ...)`. */
  function Handle(body: Raised<Prediction>): (r: Raised<Prediction>)
    ensures r.Raises? ==> r.exc.HttpException?
    ensures body.Returns? ==> r == body
    ensures body.Raises? && body.exc.HttpException? ==> r == body
    ensures body.Raises? && !body.exc.HttpException? ==> r == Raises(HttpException(500, InternalError))
  {
    match body
    case Raises(HttpException(_, _)) => body
    case Raises(_) => Raises(HttpException(500, InternalError))
    case Returns(_) => body
  }

  /** The libraries raise no HTTPException of their own for this upload (PIL and the
      prediction model raise only their own errors). */
  predicate LibrariesRaiseNoHttp(bytes: seq<byte>, s: Services) {
    match s.open(bytes)
    case Raises(e) => !e.HttpException?
    case Returns(image) => s.imgPredict(image).Raises? ==> !s.imgPredict(image).exc.HttpException?
  }

  /** `predict(file)`: what the client receives. */
  function Predict(bytes: seq<byte>, s: Services): (r: Reply<Prediction>)
    ensures r.Success? ==> s.open(bytes).Returns? && s.imgPredict(s.open(bytes).value) == Returns(r.payload)
    ensures LibrariesRaiseNoHttp(bytes, s) && r.Error? && r.status != 400 ==> r == Error(500, InternalError)
  {
    Served(Handle(Body(bytes, s)))
  }

  /** The first check is the size limit, strict: exactly 10,000,000 bytes passes it. */
  lemma SizeGuard(bytes: seq<byte>, s: Services)
    ensures Oversized(bytes) ==> Predict(bytes, s) == Error(400, SizeExceeded)
    ensures LibrariesRaiseNoHttp(bytes, s) && Predict(bytes, s) == Error(400, SizeExceeded) ==> Oversized(bytes)
  {
  }

  /** The signature check follows the size check and rejects buffers that start with
      neither the JPEG nor the PNG prefix. */
  lemma SignatureGuard(bytes: seq<byte>, s: Services)
    ensures !Oversized(bytes) && !HasImageSignature(bytes) ==> Predict(bytes, s) == Error(400, InvalidFormat)
    ensures LibrariesRaiseNoHttp(bytes, s) && Predict(bytes, s) == Error(400, InvalidFormat) ==>
      !Oversized(bytes) && !HasImageSignature(bytes)
  {
  }

  /** An unidentifiable image is a 400. */
  lemma DecodeGuard(bytes: seq<byte>, s: Services)
    requires !Oversized(bytes) && HasImageSignature(bytes)
    requires s.open(bytes).Raises? && s.open(bytes).exc.UnidentifiedImageError?
    ensures Predict(bytes, s) == Error(400, Unreadable)
  {
  }

  /** The channel guard's 400 escapes the inner handler and is re-raised unchanged. */
  lemma ChannelGuard(bytes: seq<byte>, s: Services)
    requires !Oversized(bytes) && HasImageSignature(bytes) && s.open(bytes).Returns?
    requires !IsRgb(s.open(bytes).value)
    ensures Predict(bytes, s) == Error(400, NotRgb)
  {
  }

  /** An HTTPException raised in the body reaches the client unchanged; every other
      exception, from the decoder or from `img_predict`, becomes the fixed 500. */
  lemma ReraiseOrWrap(bytes: seq<byte>, s: Services)
    requires Body(bytes, s).Raises?
    ensures var e := Body(bytes, s).exc;
      Predict(bytes, s) == if e.HttpException? then Error(e.statusCode, e.detail) else Error(500, InternalError)
  {
  }

  /** The guards raise only 400s; the only other status a client sees is the 500. */
  lemma StatusCodes(bytes: seq<byte>, s: Services)
    requires LibrariesRaiseNoHttp(bytes, s)
    ensures Predict(bytes, s).Error? ==> Predict(bytes, s).status == 400 || Predict(bytes, s).status == 500
  {
  }

  /** A success carries the prediction for a decoded RGB image that passed every guard. */
  lemma SuccessPayload(bytes: seq<byte>, s: Services)
    requires Predict(bytes, s).Success?
    ensures !Oversized(bytes) && HasImageSignature(bytes) && s.open(bytes).Returns? && IsRgb(s.open(bytes).value)
    ensures s.imgPredict(s.open(bytes).value) == Returns(Predict(bytes, s).payload)
  {
  }

  /** The converse of `SuccessPayload`: an upload that passes every guard and for which
      `img_predict` returns is answered with that prediction. */
  lemma ValidUploadSucceeds(bytes: seq<byte>, s: Services)
    requires !Oversized(bytes) && HasImageSignature(bytes) && s.open(bytes).Returns? && IsRgb(s.open(bytes).value)
    requires s.imgPredict(s.open(bytes).value).Returns?
    ensures Predict(bytes, s) == Success(s.imgPredict(s.open(bytes).value).value)
  {
  }

  /** Once a guard has fired, the prediction model is never consulted. */
  lemma RejectedBeforePrediction(bytes: seq<byte>, open: seq<byte> -> Raised<NdArray>,
                                 p1: NdArray -> Raised<Prediction>, p2: NdArray -> Raised<Prediction>)
    requires Oversized(bytes) || !HasImageSignature(bytes) || open(bytes).Raises? || !IsRgb(open(bytes).value)
    ensures Predict(bytes, Services(open, p1)) == Predict(bytes, Services(open, p2))
  {
  }
}
