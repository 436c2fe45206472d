# Digit classifier image normaliser, in Dafny

A model of the image-normalisation core of a small digit-classification web
service. The service takes an uploaded image and normalises it into the fixed
input format of an MNIST-style classifier. It runs the classifier and answers
with the predicted digit and a confidence. The model covers the parts that
make decisions:

- `transform_image`:
  - the polarity test: invert when the mean grey level exceeds 127;
  - the thumbnail bound;
  - centring on a 28 by 28 black frame;
  - scaling to [0, 1];
  - reshaping to 1 x 28 x 28 x 1.
- The `/predict` handler:
  - the "Model not loaded" guard;
  - the first-maximum `argmax`;
  - the lookup in the ten-entry label table, with the confidence read from the same entry.

Images are immutable grids `seq<seq<Pixel>>`, where `Pixel` is the subset
type 0..255 of an 8-bit luminance image, indexed row first. Tensors are nested
sequences of `real`, which is exact rational arithmetic. Every operation is a
pure function.

Modules, following the pipeline:

- `Raster` (raster.dfy): grids, the frame side 28, pixel count and grey-level sum.
- `Polarity` (polarity.dfy): the mean test and `ImageOps.invert`.
- `Canvas` (canvas.dfy): paste offsets, `paste`, and centring on the black frame.
- `Tensor` (tensor.dfy): the division by 255 and the reshape.
- `Normalizer` (normalizer.dfy): `transform_image` as one function.
- `Inference` (inference.dfy): the `/predict` handler, `argmax` and the label table.

Three collaborators become parameters, because their code is not part of this model:

- The resampling inside `thumbnail` is a function parameter `Grid -> Grid`.
  It is constrained by `Normalizer.IsThumbnail`:
  - both sides of the result are between 1 and 28;
  - neither side is larger than in the source;
  - an image that already fits the 28 by 28 box comes back unchanged, as PIL's `thumbnail` does.
- The trained model is `ModelState`, which is either `Absent` or `Loaded(infer)`.
  `infer` is an opaque function from tensor to probability row.
- Decoding is the `Upload` value: `Undecodable`, or `Decoded(image)`.

Two consequences of main.py as written:

- The handler does not catch a decoding failure. It is modelled as
  `Raised(DecodeFailed)`, an exception escaping to the server, not as a JSON
  error body.
- Re-running the pipeline on a 28 by 28 frame it produced gives the same
  tensor exactly when the frame's mean grey level is at most 127
  (`Normalizer.RenormaliseIsIdentity` for one direction,
  `Normalizer.FrameAboveThresholdFlips` for the other). A frame above that
  mean is inverted again. Inversion alone does not rule this out: a mean
  between 127 and 128 stays above 127 after inversion
  (`Polarity.InversionCanLeaveMeanAbove`).

## Model

| member | source | states |
|---|---|---|
| `Polarity.ShouldInvertIffMeanAbove` | main.py:31 | the integer test sum > 127 x count holds exactly when the mean grey level exceeds 127; a mean of exactly 127 is not inverted, and an image with no pixels is never inverted (numpy's NaN mean compares false) |
| `Polarity.Invert` | main.py:32 | inversion keeps the number of rows and each row's length, maps every grey level v to the one that adds up with v to 255, and stays within 0..255 |
| `Polarity.InvertInvolution` | main.py:32 | inverting twice gives back the original image |
| `Polarity.InvertKeepsShape` | main.py:32 | an h by w image inverts to an h by w image |
| `Polarity.InvertSum` | main.py:32 | inversion turns the grey-level sum S into 255 x count - S |
| `Polarity.FixPolarity` | main.py:31-32 | if the sum exceeds 127 x count, every pixel v becomes 255 - v; otherwise, including at a mean of exactly 127, the image is returned unchanged |
| `Polarity.FixPolarityKeepsShape` | main.py:31-32 | the polarity step keeps an image an image of the same width and height |
| `Polarity.FixPolarityBound` | main.py:31-32 | after the polarity step the mean grey level of a non-empty image is below 128 |
| `Polarity.InversionCanLeaveMeanAbove` | main.py:31-32 | the image [127, 128] is inverted to [128, 127], which the same test would invert again, so the step is not idempotent on every input |
| `Raster.Blank` | main.py:35 | `Image.new("L", (28, 28), 0)`: an h by w grid whose every pixel is black |
| `Canvas.Offset` | main.py:36-37 | for a side of 1 to 28 pixels the offset is non-negative, the block fits in the frame, and the near margin is at most the far one, which exceeds it by at most one |
| `Canvas.OffsetIsUnique` | main.py:36-37 | any offset with that margin property is the floor-division offset (28 - extent) // 2 |
| `Canvas.PasteRow` | main.py:38 | splicing a block into a row keeps the row's length, puts the block at its column, and leaves every other entry unchanged |
| `Canvas.Paste` | main.py:38 | pasting an in-frame block keeps the canvas size, each pixel in the block is the image pixel at the same relative place, and every other pixel is unchanged |
| `Canvas.Center` | main.py:35-38 | the centred frame is exactly 28 by 28, every pixel outside the centred block is 0, and every pixel inside equals the image pixel at (row - paste_y, column - paste_x) |
| `Canvas.CenterFullFrame` | main.py:35-38 | a 28 by 28 image is pasted at the corner and comes back unchanged |
| `Canvas.CenterKeepsSum` | main.py:35-38 | the frame's grey-level sum equals the image's: centring only adds black |
| `Tensor.Normalise` | main.py:39 | dividing by 255 keeps the shape, every value times 255 is the grey level, every value lies in [0, 1], and a value is 0 exactly when the pixel is black |
| `Tensor.DenormaliseNormalise` | main.py:39 | scaling the normalised values back to 0..255 recovers every grey level exactly |
| `Tensor.NormaliseInjective` | main.py:39 | two images with the same normalised matrix are equal |
| `Tensor.Reshape` | main.py:40 | a 28 by 28 matrix reshapes to a tensor of shape 1 x 28 x 28 x 1 holding entry (i, j) at [0][i][j][0] |
| `Tensor.ReshapeRoundTrip` | main.py:40 | reshaping and dropping the batch and channel axes undo each other in both directions |
| `Normalizer.Framed` | main.py:31-38 | the centred frame of the polarity-fixed, resized image is exactly 28 by 28 |
| `Normalizer.TransformImage` | main.py:29-41 | for any source size the output has shape 1 x 28 x 28 x 1 with values in [0, 1]; values outside the centred block are 0; each value inside is the resized pixel at the same place in the block, over 255 |
| `Normalizer.TransformRecoversFrame` | main.py:35-40 | the output, scaled back to grey levels, is exactly the centred 28 by 28 frame |
| `Normalizer.FramedKeepsSum` | main.py:33-38 | the frame's grey-level sum equals that of the polarity-fixed, resized image |
| `Normalizer.TransformCanonicalFrame` | main.py:31-40 | a 28 by 28 image with mean at most 127 is not inverted, not resized and not moved, so the output is its normalised, reshaped self |
| `Normalizer.RenormaliseIsIdentity` | main.py:29-41 | feeding the frame read back from an output through the pipeline again gives the same output, provided its mean is at most 127 |
| `Normalizer.FrameAboveThresholdFlips` | main.py:31-40 | a 28 by 28 image with mean above 127 is inverted, so the output is not its own normalised, reshaped self |
| `Normalizer.InvertedFrameDiffers` | main.py:32-40 | no 28 by 28 image normalises and reshapes to the same tensor as its inverse, since each pixel and its inverse add up to the odd number 255 |
| `Inference.ArgMax` | main.py:315 | the chosen index holds an entry no smaller than any other and strictly larger than every entry before it |
| `Inference.FirstMaxUnique` | main.py:315 | there is at most one such first maximum |
| `Inference.Select` | main.py:315-317 | with i the first maximum, the answer is label CLASS_NAMES[i] with confidence p[i] when i < 10; an empty vector and an index past the table raise; a vector of at most 10 entries always gives a prediction |
| `Inference.SelectReportsMaximum` | main.py:315-317 | the reported confidence is an entry of the vector and no entry exceeds it |
| `Inference.ClassNameIsDigit` | main.py:12 | label i is the single decimal digit of i |
| `Inference.HandlePredict` | main.py:307-319 | with no model the answer is exactly the "Model not loaded" error; with a model, an undecodable upload raises, and otherwise the answer is the label and entry at the first maximum of the model's output on the normalised tensor |
| `Inference.AbsentModelIgnoresUpload` | main.py:308-309 | with no model the answer is the same for every upload, including ones the normaliser could not accept |
| `Inference.LoadedModelPredicts` | main.py:311-319 | a loaded model whose output has one entry per label always gives a prediction whose label is a digit and whose confidence is the maximum entry |
| `Inference.StubModelPredictsSeven` | main.py:314-319 | a model putting 0.92 on class 7 and less elsewhere yields class "7" with confidence 0.92 |

## Left out

- Decoding and greyscale conversion (`Image.open(...).convert("L")`, main.py:30): image formats and luminance weighting are library code. The model starts from the decoded grid, or from `Undecodable`.
- Lanczos resampling in `thumbnail` (main.py:34): a floating-point convolution. Only the output-size contract `Normalizer.IsThumbnail` is kept, and the resized grey levels are left open.
- Normalizer.IsThumbnail: does not fix which side becomes exactly 28, nor PIL's rounding of the scaled side. Aspect preservation is therefore not stated.
- Normalizer.TransformImage: states the output in terms of the resized image, whose grey levels are unspecified; it cannot relate output values to source pixels beyond that.
- Canvas.Paste: requires the block to lie inside the canvas and so does not model PIL's clipping of blocks that stick out. `Canvas.Offset` proves the centring offsets never need it.
- Model loading (main.py:21-26) and `model.predict` (main.py:314): an opaque trained network. It is the `ModelState` parameter, and its output row is an arbitrary `seq<real>`.
- Inference.ArgMax: NaN entries, which numpy's `argmax` would pick first, do not exist among `real`s.
- IEEE double rounding of `/ 255.0` and of the model's outputs: values are exact rationals.
- The FastAPI app, static mount, `await file.read()`, JSON serialisation and the `/` handler with its HTML page (main.py:15-19, 44-304): I/O and markup without decisions.
- How the server answers a `Raised` fault (an internal server error) is not modelled.
