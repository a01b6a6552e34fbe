/**
 * What the three upload handlers share: the uploaded bytes, the size limit, the
 * JPEG/PNG signature test, the decoded array and its RGB test, the classifier's
 * result, and the client-visible outcome of a request.
 */
module Upload {
  import opened Py

  type byte = x: int | 0 <= x < 256

  /** Uploads strictly longer than this are refused (`len(image_bytes) > 10_000_000`). */
  const MaxUploadBytes: nat := 10_000_000

  /** JPEG start-of-image marker (ITU-T T.81, Table B.1). */
  const JpegSoi: seq<byte> := [0xFF, 0xD8]

  /** First four bytes of the PNG signature: 0x89 'P' 'N' 'G' (section 5.2 of the W3C PNG Recommendation, second edition). */
  const PngPrefix: seq<byte> := [0x89, 0x50, 0x4E, 0x47]

  /** `bytes.startswith(prefix)` */
  predicate StartsWith(s: seq<byte>, prefix: seq<byte>) {
    |prefix| <= |s| && s[..|prefix|] == prefix
  }

  predicate Oversized(bytes: seq<byte>) {
    |bytes| > MaxUploadBytes
  }

  predicate HasImageSignature(bytes: seq<byte>) {
    StartsWith(bytes, JpegSoi) || StartsWith(bytes, PngPrefix)
  }

  /** The signature test, byte by byte: an empty or one-byte buffer never passes. */
  lemma SignatureBytes(b: seq<byte>)
    ensures HasImageSignature(b) <==>
      (|b| >= 2 && b[0] == 0xFF && b[1] == 0xD8) ||
      (|b| >= 4 && b[0] == 0x89 && b[1] == 0x50 && b[2] == 0x4E && b[3] == 0x47)
  {
    if |b| >= 2 && b[0] == 0xFF && b[1] == 0xD8 {
      assert b[..2] == JpegSoi;
    }
    if |b| >= 4 && b[0] == 0x89 && b[1] == 0x50 && b[2] == 0x4E && b[3] == 0x47 {
      assert b[..4] == PngPrefix;
    }
    if StartsWith(b, JpegSoi) {
      assert b[0] == b[..2][0] && b[1] == b[..2][1];
    }
    if StartsWith(b, PngPrefix) {
      assert b[0] == b[..4][0] && b[1] == b[..4][1] && b[2] == b[..4][2] && b[3] == b[..4][3];
    }
  }

  /** One pixel: its channel values. */
  type Pixel = seq<byte>

  /** An image as rows of pixels: `frame[r][c]` is the pixel at row r, column c. */
  type Frame = seq<seq<Pixel>>

  /** The result of `np.array(Image.open(...))`: the array's shape and its contents
      viewed along the first two axes. */
  datatype NdArray = NdArray(shape: seq<int>, frame: Frame)

  /** The opposite of the guard `len(image_np.shape) != 3 or image_np.shape[2] != 3`. */
  predicate IsRgb(image: NdArray) {
    |image.shape| == 3 && image.shape[2] == 3
  }

  /** The classifier's answer `{"class": ..., "prob": ...}`. */
  datatype Prediction = Prediction(className: string, prob: string)

  /** What a client receives: a success payload, or an HTTP status and a message. */
  datatype Reply<+T> = Success(payload: T) | Error(status: int, message: string)

  /** A definition, not a model of repository code: how FastAPI renders an endpoint
      that returns a value or lets an HTTPException escape, reduced to the value or
      the exception's status and detail (the `{"detail": ...}` body is not modelled). */
  function Served<T>(r: Raised<T>): (reply: Reply<T>)
    requires r.Raises? ==> r.exc.HttpException?
    ensures r.Returns? <==> reply.Success?
    ensures r.Returns? ==> reply.payload == r.value
    ensures r.Raises? ==> reply.status == r.exc.statusCode && reply.message == r.exc.detail
  {
    match r
    case Returns(v) => Success(v)
    case Raises(e) => Error(e.statusCode, e.detail)
  }
}
