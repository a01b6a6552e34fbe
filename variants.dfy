/**
 * The repository carries three copies of the upload handler. Their messages differ
 * (English in one, Russian in the others), but they refuse the same uploads at the
 * same guards with the same status codes.
 */
module Variants {
  import opened Py
  import opened Upload
  import AppRoute
  import ApiPredict

  /** An upload that fails the size, signature, decode or channel guard is refused by
      the richer endpoint and by the router endpoint with the same status, whatever
      each does after decoding. */
  lemma GuardStatusesAgree(bytes: seq<byte>, open: seq<byte> -> Raised<NdArray>,
                           app: AppRoute.Services, api: ApiPredict.Services)
    requires Oversized(bytes) || !HasImageSignature(bytes) || open(bytes).Raises? || !IsRgb(open(bytes).value)
    requires open(bytes).Raises? ==> !open(bytes).exc.HttpException?
    ensures var a := AppRoute.Predict(bytes, AppRoute.Services(open, app.process, app.classify, app.encode));
      var b := ApiPredict.Predict(bytes, ApiPredict.Services(open, api.imgPredict));
      a.Error? && b.Error? && a.status == b.status
    ensures var a := AppRoute.Predict(bytes, AppRoute.Services(open, app.process, app.classify, app.encode));
      a.status == 400 <==> !(!Oversized(bytes) && HasImageSignature(bytes) &&
                             open(bytes).Raises? && !open(bytes).exc.UnidentifiedImageError?)
  {
  }
}
