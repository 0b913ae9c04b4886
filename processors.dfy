/**
 * pkg/imgpool/processors/invert.go: the same inversion loop as
 * imgprocess.go (shared as `InvertProcessor.InvertPixels`); on completion
 * the inverted image goes to EncodeImage together with the decoded
 * format name. EncodeImage (pkg/imgpool/processors/util.go) is a codec
 * call and is not part of this model.
 */
module Processors {
  import opened Base
  import opened InvertProcessor

  /**
   * InvertImageProcessor(options)(ctx, input, output): a decode failure is
   * returned unchanged, a cancelled context stops the loop with its error,
   * and otherwise the inverted image, with the input's bounds, is handed to
   * EncodeImage under the format the input was decoded from.
   */
  method InvertImageProcessor(decoded: Result<Decoded, Error>, cancelAt: Option<nat>) returns (r: Completion<string>)
    requires decoded.Success? ==> WellFormed(decoded.value)
    ensures decoded.Failure? ==> r == Returned(decoded.error)
    ensures decoded.Success? ==>
      (r.Returned? <==> Cancels(cancelAt, decoded.value.bounds.Dx() * decoded.value.bounds.Dy()))
    ensures decoded.Success? && r.Returned? ==> r.err == Canceled
    ensures r.Encode? ==>
      && decoded.Success?
      && r.encoder == decoded.value.format
      && r.bounds == decoded.value.bounds
      && fresh(r.pixels)
      && FullyInverted(decoded.value, r.pixels)
  {
    if decoded.Failure? {
      return Returned(decoded.error);
    }
    var img := decoded.value;
    var inverted, err := InvertPixels(img, cancelAt);
    if err.Some? {
      return Returned(err.value);
    }
    r := Encode(img.format, img.bounds, inverted);
  }
}
