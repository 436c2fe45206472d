/** The `/predict` handler (main.py:306-319) with the label table
    (main.py:12): the model-absent guard, the normaliser, and the choice of
    label and confidence from the model's output vector. */
module Inference {
  import opened Raster
  import opened Polarity
  import opened Tensor
  import opened Normalizer

  /** `CLASS_NAMES`: label i is the decimal digit i. */
  const ClassNames: seq<string> := ["0", "1", "2", "3", "4", "5", "6", "7", "8", "9"]

  const ModelNotLoaded: string := "Model not loaded"

  /** The process-wide model: absent when loading failed at start-up,
      otherwise an opaque inference function giving the probability row for
      a tensor (`model.predict(img_array)[0]`). */
  datatype ModelState = Absent | Loaded(infer: Tensor4 -> seq<real>)

  /** The upload after `Image.open(...).convert("L")`: either bytes the
      decoder refuses, or the decoded luminance image. */
  datatype Upload = Undecodable | Decoded(image: Grid)

  /** Exceptions that escape the handler; the server answers them with an
      internal error instead of a JSON body of the handler's own. */
  datatype Fault =
    | DecodeFailed          // Image.open raises on bytes that are not an image
    | EmptyPrediction       // np.argmax raises on an empty vector
    | LabelIndexOutOfRange  // CLASS_NAMES[i] raises for i >= 10

  datatype Response =
    | Prediction(className: string, confidence: real)  // {"class": ..., "confidence": ...}
    | ErrorBody(error: string)                      // {"error": ...}
    | Raised(fault: Fault)

  /** `i` is where `np.argmax` lands: an entry no smaller than any other,
      and strictly larger than every entry before it. */
  predicate IsFirstMax(p: seq<real>, i: int) {
    && 0 <= i < |p|
    && (forall j :: 0 <= j < |p| ==> p[j] <= p[i])
    && (forall j :: 0 <= j < i ==> p[j] < p[i])
  }

  /** There is at most one first maximum. */
  lemma FirstMaxUnique(p: seq<real>, i: int, k: int)
    requires IsFirstMax(p, i) && IsFirstMax(p, k)
    ensures i == k
  {
    // Each maximum lies at or after the other, since an entry before a
    // first maximum is strictly smaller and the two maxima are equal.
    assert p[i] == p[k];
  }

  /** `np.argmax`: a left-to-right scan that moves only on a strictly larger
      entry, so ties go to the lowest index. */
  function ArgMax(p: seq<real>): (i: nat)
    requires |p| > 0
    ensures IsFirstMax(p, i)
  {
    if |p| == 1 then 0
    else
      var k := ArgMax(p[..|p| - 1]);
      if p[|p| - 1] > p[k] then |p| - 1 else k
  }

  /** The label and confidence read off the model's output vector. The label
      is the class name at the first maximum and the confidence is the entry
      there; an empty vector and a maximum past the label table are the
      exceptions numpy and Python raise. */
  function Select(p: seq<real>): (r: Response)
    ensures |p| == 0 <==> r == Raised(EmptyPrediction)
    ensures forall i :: IsFirstMax(p, i) && i < |ClassNames| ==> r == Prediction(ClassNames[i], p[i])
    ensures forall i :: IsFirstMax(p, i) && i >= |ClassNames| ==> r == Raised(LabelIndexOutOfRange)
    ensures 0 < |p| <= |ClassNames| ==> r.Prediction?
  {
    if |p| == 0 then Raised(EmptyPrediction)
    else
      var i := ArgMax(p);
      if i < |ClassNames| then Prediction(ClassNames[i], p[i]) else Raised(LabelIndexOutOfRange)
  }

  /** The confidence reported is the largest entry of the vector. */
  lemma SelectReportsMaximum(p: seq<real>)
    requires 0 < |p| <= |ClassNames|
    ensures Select(p).Prediction?
    ensures forall j :: 0 <= j < |p| ==> p[j] <= Select(p).confidence
    ensures exists j :: 0 <= j < |p| && p[j] == Select(p).confidence
  {
  }

  /** Each label is the single decimal digit of its index. */
  lemma ClassNameIsDigit(i: int)
    requires 0 <= i < |ClassNames|
    ensures |ClassNames[i]| == 1
    ensures ClassNames[i][0] as int - '0' as int == i
  {
  }

  /** The `/predict` handler. With no model it answers "Model not loaded"
      before reading the upload; otherwise it normalises the decoded image,
      runs the model and selects label and confidence. The resizing and the
      model are parameters: their code is not part of this model. */
  function HandlePredict(model: ModelState, upload: Upload, thumbnail: Grid -> Grid): (r: Response)
    requires model.Loaded? && upload.Decoded? ==>
      IsImage(upload.image) && IsThumbnail(FixPolarity(upload.image), Resized(upload.image, thumbnail))
    ensures model.Absent? <==> r == ErrorBody(ModelNotLoaded)
    ensures model.Loaded? && upload.Undecodable? ==> r == Raised(DecodeFailed)
    ensures model.Loaded? && upload.Decoded? ==>
      var p := model.infer(TransformImage(upload.image, thumbnail));
      && (|p| == 0 ==> r == Raised(EmptyPrediction))
      && (forall i :: IsFirstMax(p, i) && i < |ClassNames| ==> r == Prediction(ClassNames[i], p[i]))
      && (forall i :: IsFirstMax(p, i) && i >= |ClassNames| ==> r == Raised(LabelIndexOutOfRange))
  {
    match model
    case Absent => ErrorBody(ModelNotLoaded)
    case Loaded(infer) =>
      match upload
      case Undecodable => Raised(DecodeFailed)
      case Decoded(image) => Select(infer(TransformImage(image, thumbnail)))
  }

  /** With no model the answer does not depend on the upload at all, even
      one the normaliser could not accept. */
  lemma AbsentModelIgnoresUpload(u1: Upload, u2: Upload, t1: Grid -> Grid, t2: Grid -> Grid)
    ensures HandlePredict(Absent, u1, t1) == HandlePredict(Absent, u2, t2)
    ensures HandlePredict(Absent, u1, t1) == ErrorBody(ModelNotLoaded)
  {
  }

  /** A loaded model whose output has one entry per label always yields a
      prediction, whose label is a digit and whose confidence is the
      vector's maximum. */
  lemma LoadedModelPredicts(infer: Tensor4 -> seq<real>, image: Grid, thumbnail: Grid -> Grid)
    requires IsImage(image) && IsThumbnail(FixPolarity(image), Resized(image, thumbnail))
    requires |infer(TransformImage(image, thumbnail))| == |ClassNames|
    ensures var r := HandlePredict(Loaded(infer), Decoded(image), thumbnail);
      && r.Prediction?
      && r.className in ClassNames
      && forall j :: 0 <= j < |ClassNames| ==> infer(TransformImage(image, thumbnail))[j] <= r.confidence
  {
    SelectReportsMaximum(infer(TransformImage(image, thumbnail)));
  }

  /** A stub model that puts 0.92 on class 7 and less elsewhere yields the
      answer {"class": "7", "confidence": 0.92}. */
  lemma StubModelPredictsSeven(image: Grid, thumbnail: Grid -> Grid)
    requires IsImage(image) && IsThumbnail(FixPolarity(image), Resized(image, thumbnail))
    ensures var stub := (t: Tensor4) => [0.01, 0.01, 0.01, 0.01, 0.01, 0.01, 0.01, 0.92, 0.005, 0.005];
      HandlePredict(Loaded(stub), Decoded(image), thumbnail) == Prediction("7", 0.92)
  {
    var p := [0.01, 0.01, 0.01, 0.01, 0.01, 0.01, 0.01, 0.92, 0.005, 0.005];
    assert IsFirstMax(p, 7);
  }
}
