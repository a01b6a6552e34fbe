/**
 * `FaceDetector.detect`: run the face-detection model on a frame, and crop the
 * frame around the last detected box, widened by a margin of one eighth of the
 * box on the left and top and extended to five quarters of its size.
 */
module Detector {
  import opened Py
  import opened Upload

  /** One detection in pixels: the four values `int(relative * frame.shape[k])`
      of its relative bounding box. */
  datatype PixelBox = PixelBox(xmin: int, ymin: int, width: int, height: int)

  /** What the detection model's `process(frame).detections` yields: `None` when no
      face was found, otherwise the detections in the model's order. */
  type Process = Frame -> Raised<Option<seq<PixelBox>>>

  const FaceNotFound := "Face not found"
  const ModelRuntimeError := "Model runtime error"

  /** `int(n * 0.125)`: the product is exact, `int` truncates toward zero. */
  function Margin(n: int): int {
    if n >= 0 then n / 8 else -((-n) / 8)
  }

  /** `int(n * 1.25)`: the product is exact, `int` truncates toward zero. */
  function Extent(n: int): int {
    if n >= 0 then (5 * n) / 4 else -((5 * -n) / 4)
  }

  /** For a non-negative size the margin is its eighth and the extent its five
      quarters, both rounded down; a negative size mirrors a positive one. */
  lemma MarginAndExtent(n: int)
    ensures n >= 0 ==> 0 <= 8 * Margin(n) <= n < 8 * Margin(n) + 8
    ensures n >= 0 ==> 0 <= 4 * Extent(n) <= 5 * n < 4 * Extent(n) + 4
    ensures n >= 0 ==> Margin(n) <= n <= Extent(n)
    ensures Margin(-n) == -Margin(n) && Extent(-n) == -Extent(n)
  {
  }

  /** Left edge of the crop: `max(0, xmin - int(w * 0.125))`. */
  function OriginX(box: PixelBox): int {
    Max(0, box.xmin - Margin(box.width))
  }

  /** Top edge of the crop: `max(0, ymin - int(h * 0.125))`. */
  function OriginY(box: PixelBox): int {
    Max(0, box.ymin - Margin(box.height))
  }

  /** The crop origin is never negative, and it is the widened corner unless that lies
      off the frame's top or left edge. */
  lemma OriginClamped(box: PixelBox)
    ensures OriginX(box) >= 0 && OriginY(box) >= 0
    ensures OriginX(box) == (if box.xmin - Margin(box.width) < 0 then 0 else box.xmin - Margin(box.width))
    ensures OriginY(box) == (if box.ymin - Margin(box.height) < 0 then 0 else box.ymin - Margin(box.height))
  {
  }

  /** The two-axis slice `frame[top:bottom, left:right]` of a NumPy array. */
  function SubFrame(frame: Frame, top: int, bottom: int, left: int, right: int): Frame {
    var rows := Slice(frame, top, bottom);
    seq(|rows|, i requires 0 <= i < |rows| => Slice(rows[i], left, right))
  }

  /** `frame[y:y + int(h * 1.25), x:x + int(w * 1.25)]` */
  function Crop(frame: Frame, box: PixelBox): Frame {
    var x, y := OriginX(box), OriginY(box);
    SubFrame(frame, y, y + Extent(box.height), x, x + Extent(box.width))
  }

  /** Every row of the frame is `width` pixels long. */
  predicate Rectangular(frame: Frame, width: nat) {
    forall r :: 0 <= r < |frame| ==> |frame[r]| == width
  }

  /** A two-axis slice is no larger than the frame, and its pixels are the frame's
      pixels at the adjusted start of each axis. */
  lemma SubFrameElements(frame: Frame, top: int, bottom: int, left: int, right: int, width: nat)
    requires Rectangular(frame, width)
    ensures var c := SubFrame(frame, top, bottom, left, right);
      && |c| <= |frame|
      && forall i :: 0 <= i < |c| ==> |c[i]| <= width
    ensures var c := SubFrame(frame, top, bottom, left, right);
      var r0, c0 := ClampIndex(top, |frame|), ClampIndex(left, width);
      forall i, j :: 0 <= i < |c| && 0 <= j < |c[i]| ==>
        r0 + i < |frame| && c0 + j < width && c[i][j] == frame[r0 + i][c0 + j]
  {
    var c := SubFrame(frame, top, bottom, left, right);
    var r0, c0 := ClampIndex(top, |frame|), ClampIndex(left, width);
    var rows := Slice(frame, top, bottom);
    SliceElements(frame, top, bottom);
    forall i | 0 <= i < |c|
      ensures |c[i]| <= width
      ensures forall j :: 0 <= j < |c[i]| ==> r0 + i < |frame| && c0 + j < width && c[i][j] == frame[r0 + i][c0 + j]
    {
      assert rows[i] == frame[r0 + i];
      SliceElements(rows[i], left, right);
    }
  }

  /** With non-negative bounds a two-axis slice has max(0, min(H, bottom) - top) rows of
      max(0, min(W, right) - left) pixels, each the frame pixel at (top + i, left + j). */
  lemma SubFrameOfNonNegativeBounds(frame: Frame, top: nat, bottom: nat, left: nat, right: nat, width: nat)
    requires Rectangular(frame, width)
    ensures var c := SubFrame(frame, top, bottom, left, right);
      && |c| == Max(0, Min(|frame|, bottom) - top)
      && forall i :: 0 <= i < |c| ==> |c[i]| == Max(0, Min(width, right) - left)
    ensures var c := SubFrame(frame, top, bottom, left, right);
      forall i, j :: 0 <= i < |c| && 0 <= j < |c[i]| ==>
        top + i < |frame| && left + j < width && c[i][j] == frame[top + i][left + j]
  {
    var c := SubFrame(frame, top, bottom, left, right);
    var rows := Slice(frame, top, bottom);
    SliceOfNonNegativeBounds(frame, top, bottom);
    forall i | 0 <= i < |c|
      ensures |c[i]| == Max(0, Min(width, right) - left)
      ensures forall j :: 0 <= j < |c[i]| ==> top + i < |frame| && left + j < width && c[i][j] == frame[top + i][left + j]
    {
      assert rows[i] == frame[top + i];
      SliceOfNonNegativeBounds(rows[i], left, right);
    }
  }

  /** Whatever the box, the crop is no larger than the frame. */
  lemma CropWithinFrame(frame: Frame, box: PixelBox, width: nat)
    requires Rectangular(frame, width)
    ensures |Crop(frame, box)| <= |frame|
    ensures forall i :: 0 <= i < |Crop(frame, box)| ==> |Crop(frame, box)[i]| <= width
  {
    var x, y := OriginX(box), OriginY(box);
    var bottom, right := y + Extent(box.height), x + Extent(box.width);
    assert Crop(frame, box) == SubFrame(frame, y, bottom, x, right);
    SubFrameElements(frame, y, bottom, x, right, width);
  }

  /** Whatever the box, crop pixel (i, j) is the frame pixel at that offset from the
      clamped origin. */
  lemma CropPixelAtOffset(frame: Frame, box: PixelBox, width: nat, i: nat, j: nat)
    requires Rectangular(frame, width)
    requires i < |Crop(frame, box)| && j < |Crop(frame, box)[i]|
    ensures var r0, c0 := ClampIndex(OriginY(box), |frame|), ClampIndex(OriginX(box), width);
      r0 + i < |frame| && c0 + j < width && Crop(frame, box)[i][j] == frame[r0 + i][c0 + j]
  {
    var x, y := OriginX(box), OriginY(box);
    var bottom, right := y + Extent(box.height), x + Extent(box.width);
    var c := SubFrame(frame, y, bottom, x, right);
    assert Crop(frame, box) == c;
    SubFrameElements(frame, y, bottom, x, right, width);
    assert c[i][j] == frame[ClampIndex(y, |frame|) + i][ClampIndex(x, width) + j];
  }

  /** For a box of non-negative size on a rectangular frame of H rows and W columns the
      crop has max(0, min(H, y + int(h * 1.25)) - y) rows of max(0, min(W, x + int(w * 1.25)) - x)
      pixels. */
  lemma CropGeometry(frame: Frame, box: PixelBox, width: nat)
    requires Rectangular(frame, width)
    requires box.width >= 0 && box.height >= 0
    ensures var c, x, y := Crop(frame, box), OriginX(box), OriginY(box);
      && |c| == Max(0, Min(|frame|, y + Extent(box.height)) - y)
      && forall i :: 0 <= i < |c| ==> |c[i]| == Max(0, Min(width, x + Extent(box.width)) - x)
  {
    var x, y := OriginX(box), OriginY(box);
    var eh, ew := Extent(box.height), Extent(box.width);
    assert eh >= 0 && ew >= 0;
    assert Crop(frame, box) == SubFrame(frame, y, y + eh, x, x + ew);
    SubFrameOfNonNegativeBounds(frame, y, y + eh, x, x + ew, width);
  }

  /** For a box of non-negative size every crop pixel is the frame pixel at (y + i, x + j). */
  lemma CropPixels(frame: Frame, box: PixelBox, width: nat)
    requires Rectangular(frame, width)
    requires box.width >= 0 && box.height >= 0
    ensures var c, x, y := Crop(frame, box), OriginX(box), OriginY(box);
      forall i, j :: 0 <= i < |c| && 0 <= j < |c[i]| ==>
        y + i < |frame| && x + j < width && c[i][j] == frame[y + i][x + j]
  {
    var x, y := OriginX(box), OriginY(box);
    var eh, ew := Extent(box.height), Extent(box.width);
    assert eh >= 0 && ew >= 0;
    assert Crop(frame, box) == SubFrame(frame, y, y + eh, x, x + ew);
    SubFrameOfNonNegativeBounds(frame, y, y + eh, x, x + ew, width);
  }

  /** The extent is not shortened when the origin was clamped to 0: the crop then
      ends at row min(H, int(h * 1.25)) rather than at the widened corner plus the extent. */
  lemma CropNotShiftedWhenClamped(frame: Frame, box: PixelBox, width: nat)
    requires Rectangular(frame, width)
    requires box.width >= 0 && box.height >= 0
    requires box.ymin - Margin(box.height) < 0
    ensures |Crop(frame, box)| == Min(|frame|, Extent(box.height))
  {
    CropGeometry(frame, box, width);
  }

  /** A crop whose origin lies at or past the bottom edge is empty; one whose origin
      lies at or past the right edge has only empty rows. */
  lemma CropPastEdge(frame: Frame, box: PixelBox, width: nat)
    requires Rectangular(frame, width)
    ensures OriginY(box) >= |frame| ==> Crop(frame, box) == []
    ensures OriginX(box) >= width ==> forall i :: 0 <= i < |Crop(frame, box)| ==> Crop(frame, box)[i] == []
  {
    var x, y := OriginX(box), OriginY(box);
    var bottom, right := y + Extent(box.height), x + Extent(box.width);
    if y >= |frame| {
      SlicePastEnd(frame, y, bottom);
    }
    if x >= width {
      var rows := Slice(frame, y, bottom);
      SliceElements(frame, y, bottom);
      forall i | 0 <= i < |rows| ensures Slice(rows[i], x, right) == [] {
        assert rows[i] == frame[ClampIndex(y, |frame|) + i];
        SlicePastEnd(rows[i], x, right);
      }
    }
  }

  /** The loop `for i in detections: cropped_frame = ...`: the value `cropped_frame`
      holds after visiting `boxes`, when it held `last` before. */
  function LastCrop(frame: Frame, boxes: seq<PixelBox>, last: Option<Frame>): Option<Frame>
    decreases |boxes|
  {
    if boxes == [] then last else LastCrop(frame, boxes[1..], Some(Crop(frame, boxes[0])))
  }

  /** Each iteration overwrites the crop, so the last box wins. */
  lemma {:induction false} LastCropIsLastBox(frame: Frame, boxes: seq<PixelBox>, last: Option<Frame>)
    ensures LastCrop(frame, boxes, last) == if boxes == [] then last else Some(Crop(frame, boxes[|boxes| - 1]))
    decreases |boxes|
  {
    if boxes != [] {
      LastCropIsLastBox(frame, boxes[1..], Some(Crop(frame, boxes[0])));
      if |boxes| > 1 {
        assert boxes[1..][|boxes[1..]| - 1] == boxes[|boxes| - 1];
      }
    }
  }

  /** What `detect` returns or raises, given what the model produced for the frame.
      Iterating over `None` raises TypeError, reported as "Face not found"; an empty
      list leaves `cropped_frame` unbound, and that UnboundLocalError, like every
      other failure, is reported as "Model runtime error". */
  function Detection(frame: Frame, processed: Raised<Option<seq<PixelBox>>>): (r: Raised<Frame>)
    ensures r.Raises? ==> r.exc == ValueError(FaceNotFound) || r.exc == RuntimeError(ModelRuntimeError)
  {
    match processed
    case Raises(TypeError(_)) => Raises(ValueError(FaceNotFound))
    case Raises(_) => Raises(RuntimeError(ModelRuntimeError))
    case Returns(None) => Raises(ValueError(FaceNotFound))
    case Returns(Some(boxes)) =>
      match LastCrop(frame, boxes, None)
      case None => Raises(RuntimeError(ModelRuntimeError))
      case Some(c) => Returns(c)
  }

  /** The three outcomes of `detect`, each characterised by what the model produced. */
  lemma DetectionOutcomes(frame: Frame, processed: Raised<Option<seq<PixelBox>>>)
    ensures Detection(frame, processed) == Raises(ValueError(FaceNotFound)) <==>
      processed == Returns(None) || (processed.Raises? && processed.exc.TypeError?)
    ensures Detection(frame, processed).Returns? <==>
      processed.Returns? && processed.value.Some? && processed.value.value != []
    ensures Detection(frame, processed).Returns? ==>
      var boxes := processed.value.value;
      Detection(frame, processed).value == Crop(frame, boxes[|boxes| - 1])
    ensures Detection(frame, processed) == Raises(RuntimeError(ModelRuntimeError)) <==>
      processed == Returns(Some([])) || (processed.Raises? && !processed.exc.TypeError?)
  {
    if processed.Returns? && processed.value.Some? {
      LastCropIsLastBox(frame, processed.value.value, None);
    }
  }

  /** `FaceDetector.detect(frame)` with the model's `process`. */
  method Detect(process: Process, frame: Frame) returns (r: Raised<Frame>)
    ensures r == Detection(frame, process(frame))
  {
    var results := process(frame);
    match results {
      case Raises(e) =>
        r := if e.TypeError? then Raises(ValueError(FaceNotFound)) else Raises(RuntimeError(ModelRuntimeError));
      case Returns(None) =>
        r := Raises(ValueError(FaceNotFound));
      case Returns(Some(boxes)) =>
        var cropped: Option<Frame> := None;
        var i := 0;
        while i < |boxes|
          invariant 0 <= i <= |boxes|
          invariant LastCrop(frame, boxes[i..], cropped) == LastCrop(frame, boxes, None)
        {
          assert boxes[i..][1..] == boxes[i + 1..];
          cropped := Some(Crop(frame, boxes[i]));
          i := i + 1;
        }
        r := if cropped.None? then Raises(RuntimeError(ModelRuntimeError)) else Returns(cropped.value);
    }
  }
}
