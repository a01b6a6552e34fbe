/**
 * The standalone service's `POST /predict/`: a declared content-type check before
 * the body is read, then the guard chain of the router endpoint, with the same
 * re-raise-or-wrap outer handler.
 */
module BackendApp {
  import opened Py
  import opened Upload
  import ApiPredict

  const AcceptedTypes: seq<string> := ["image/jpeg", "image/png"]

  const UnsupportedType := "Поддерживаются только JPEG/PNG изображения"
  const SizeExceeded := "Размер файла превышает 10MB"
  const InvalidFormat := "Некорректный формат изображения"
  const NotRgb := "Изображение должно быть в цветном формате (RGB)"
  const Unreadable := "Невозможно прочитать изображение"
  const InternalError := "Внутренняя ошибка сервера при обработке изображения"

  /** An upload: the declared content type (absent when the client sent none) and the
      bytes `await file.read()` would produce. */
  datatype UploadFile = UploadFile(contentType: Option<string>, bytes: seq<byte>)

  /** The calls into libraries the endpoint makes. Each may return or raise anything. */
  datatype Services = Services(
    // `np.array(Image.open(io.BytesIO(bytes)))`
    open: seq<byte> -> Raised<NdArray>,
    // `detector.img_predict(image_np)`
    imgPredict: NdArray -> Raised<Prediction>)

  /** `file.content_type in ["image/jpeg", "image/png"]` */
  predicate AcceptedType(contentType: Option<string>) {
    contentType.Some? && contentType.value in AcceptedTypes
  }

  /** The body of the outer `try`. */
  function Body(bytes: seq<byte>, s: Services): (r: Raised<Prediction>)
    // a return is the prediction for a decoded RGB image that passed every guard
    ensures r.Returns? ==>
      && !Oversized(bytes) && HasImageSignature(bytes) && s.open(bytes).Returns? && IsRgb(s.open(bytes).value)
      && s.imgPredict(s.open(bytes).value) == r
    // the guards raise only HTTPExceptions with status 400; anything else comes from a library
    ensures r.Raises? && r.exc.HttpException? && LibrariesRaiseNoHttp(bytes, s) ==> r.exc.statusCode == 400
    ensures r.Raises? && !r.exc.HttpException? ==>
      || (s.open(bytes).Raises? && !s.open(bytes).exc.UnidentifiedImageError? && r.exc == s.open(bytes).exc)
      || (s.open(bytes).Returns? && s.imgPredict(s.open(bytes).value) == r)
  {
    if Oversized(bytes) then Raises(HttpException(400, SizeExceeded))
    else if !HasImageSignature(bytes) then Raises(HttpException(400, InvalidFormat))
    else
      match s.open(bytes)
      case Raises(UnidentifiedImageError(_)) => Raises(HttpException(400, Unreadable))
      case Raises(e) => Raises(e)
      case Returns(image) =>
        if !IsRgb(image) then Raises(HttpException(400, NotRgb))
        else s.imgPredict(image)
  }

  /** `except HTTPException: raise` then `except Exception: raise HTTPException(500, ...)`. */
  function Handle(body: Raised<Prediction>): (r: Raised<Prediction>)
    ensures r.Raises? ==> r.exc.HttpException?
    ensures body.Returns? ==> r == body
    ensures body.Raises? && body.exc.HttpException? ==> r == body
    ensures body.Raises? && !body.exc.HttpException? ==> r == Raises(HttpException(500, InternalError))
  {
    match body
    case Raises(HttpException(_, _)) => body
    case Raises(_) => Raises(HttpException(500, InternalError))
    case Returns(_) => body
  }

  /** `predict(file)`: the content-type guard stands outside the `try`. */
  function Endpoint(file: UploadFile, s: Services): (r: Raised<Prediction>)
    ensures r.Raises? ==> r.exc.HttpException?
  {
    if !AcceptedType(file.contentType) then Raises(HttpException(400, UnsupportedType))
    else Handle(Body(file.bytes, s))
  }

  /** The libraries raise no HTTPException of their own for this upload. */
  predicate LibrariesRaiseNoHttp(bytes: seq<byte>, s: Services) {
    match s.open(bytes)
    case Raises(e) => !e.HttpException?
    case Returns(image) => s.imgPredict(image).Raises? ==> !s.imgPredict(image).exc.HttpException?
  }

  /** What the client receives. */
  function Predict(file: UploadFile, s: Services): (r: Reply<Prediction>)
    ensures r.Success? ==>
      AcceptedType(file.contentType) && s.open(file.bytes).Returns? &&
      s.imgPredict(s.open(file.bytes).value) == Returns(r.payload)
    ensures LibrariesRaiseNoHttp(file.bytes, s) && r.Error? && r.status != 400 ==> r == Error(500, InternalError)
  {
    Served(Endpoint(file, s))
  }

  /** A declared type other than JPEG or PNG is refused before the body is looked at. */
  lemma ContentTypeGuard(file: UploadFile, s: Services, t: Services, bytes: seq<byte>)
    requires !AcceptedType(file.contentType)
    ensures Predict(file, s) == Error(400, UnsupportedType)
    ensures Predict(file, s) == Predict(UploadFile(file.contentType, bytes), t)
  {
  }

  /** With an accepted type, an oversized body is a 400 and nothing else is. */
  lemma SizeGuard(file: UploadFile, s: Services)
    requires AcceptedType(file.contentType)
    ensures Oversized(file.bytes) ==> Predict(file, s) == Error(400, SizeExceeded)
    ensures LibrariesRaiseNoHttp(file.bytes, s) && Predict(file, s) == Error(400, SizeExceeded) ==> Oversized(file.bytes)
  {
  }

  /** With an accepted type and size, a body without a JPEG or PNG prefix is a 400. */
  lemma SignatureGuard(file: UploadFile, s: Services)
    requires AcceptedType(file.contentType)
    ensures !Oversized(file.bytes) && !HasImageSignature(file.bytes) ==> Predict(file, s) == Error(400, InvalidFormat)
    ensures LibrariesRaiseNoHttp(file.bytes, s) && Predict(file, s) == Error(400, InvalidFormat) ==>
      !Oversized(file.bytes) && !HasImageSignature(file.bytes)
  {
  }

  /** An unidentifiable image and a non-RGB array are 400s. */
  lemma DecodeAndChannelGuards(file: UploadFile, s: Services)
    requires AcceptedType(file.contentType) && !Oversized(file.bytes) && HasImageSignature(file.bytes)
    ensures s.open(file.bytes).Raises? && s.open(file.bytes).exc.UnidentifiedImageError? ==>
      Predict(file, s) == Error(400, Unreadable)
    ensures s.open(file.bytes).Returns? && !IsRgb(s.open(file.bytes).value) ==>
      Predict(file, s) == Error(400, NotRgb)
  {
  }

  /** An HTTPException raised in the body reaches the client unchanged; every other
      exception, including one from `img_predict`, becomes the fixed 500. */
  lemma ReraiseOrWrap(file: UploadFile, s: Services)
    requires AcceptedType(file.contentType) && Body(file.bytes, s).Raises?
    ensures var e := Body(file.bytes, s).exc;
      Predict(file, s) == if e.HttpException? then Error(e.statusCode, e.detail) else Error(500, InternalError)
  {
  }

  /** Every refusal is a 400 from a guard or the fixed 500; `img_predict`'s own failures
      are never passed through. */
  lemma StatusCodes(file: UploadFile, s: Services)
    requires LibrariesRaiseNoHttp(file.bytes, s)
    ensures Predict(file, s).Error? ==> Predict(file, s).status == 400 || Predict(file, s).status == 500
    ensures Predict(file, s).Error? && Predict(file, s).status == 500 ==> Predict(file, s).message == InternalError
  {
  }

  /** A success carries `img_predict`'s output for a decoded RGB image that passed
      every guard. */
  lemma SuccessPayload(file: UploadFile, s: Services)
    requires Predict(file, s).Success?
    ensures AcceptedType(file.contentType) && !Oversized(file.bytes) && HasImageSignature(file.bytes)
    ensures s.open(file.bytes).Returns? && IsRgb(s.open(file.bytes).value)
    ensures s.imgPredict(s.open(file.bytes).value) == Returns(Predict(file, s).payload)
  {
  }

  /** The converse of `SuccessPayload`: an upload of an accepted type that passes every
      guard and for which `img_predict` returns is answered with that prediction. */
  lemma ValidUploadSucceeds(file: UploadFile, s: Services)
    requires AcceptedType(file.contentType) && !Oversized(file.bytes) && HasImageSignature(file.bytes)
    requires s.open(file.bytes).Returns? && IsRgb(s.open(file.bytes).value)
    requires s.imgPredict(s.open(file.bytes).value).Returns?
    ensures Predict(file, s) == Success(s.imgPredict(s.open(file.bytes).value).value)
  {
  }

  /** Past the content-type check this endpoint and the router endpoint answer every
      upload identically: the same guards, messages and handler. */
  lemma AgreesWithRouterEndpoint(file: UploadFile, s: Services)
    requires AcceptedType(file.contentType)
    ensures Predict(file, s) == ApiPredict.Predict(file.bytes, ApiPredict.Services(s.open, s.imgPredict))
  {
    var t := ApiPredict.Services(s.open, s.imgPredict);
    assert Body(file.bytes, s) == ApiPredict.Body(file.bytes, t);
  }
}
