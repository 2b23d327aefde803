# ML Kit object detection overlay — a Dafny model

The app sends a photo to a native module, on Android or on iOS. The module runs an ML Kit
object detector and resolves a JavaScript promise with one record per detected
object. Each record holds a label, a confidence, a width, a height and a
`cordinates` string. The React Native screen then:

- computes a display box for the photo: the full window width, capped at half the window height;
- scales every coordinate string into that box with `getScale`;
- draws one rectangle per record.

The model covers the following:

- **JavaScript side (`App.tsx`)**
  - `getScale`, over real numbers. A JavaScript number is `NaN`, `undefined` or a finite
    value (modules `Js`, `Scaling`).
  - The display-size branch (module `Layout`).
  - The render-time mapping from coordinate strings to rectangles (module `Overlay`).
    `Number()` and `split(' ')` are modelled as string functions.
  - The state update in `objectDetection`: a class `Presentation.App` holding the four
    state hooks.
- **Native modules**
  - The success and failure listeners of the Android module. This is a class with the
    two fields `labelWithHighestConfidence` and `highestConfidence`, which persist across
    calls (module `Android`).
  - The iOS module's body after the image has loaded, where the running best values are
    locals of the call (module `Ios`).
  - Both native modules run the same label-selection loop. Its specification lives in
    `Labelling`, and both methods are proved against it with loop invariants.
- **Promises**
  - A promise is modelled as the list of `resolve`/`reject` calls a call makes (`Bridge`).
  - The settled outcome is the first call, or `NeverSettled` when no call is made.
- **End to end (`Pipeline`)**
  - The strings the native modules write split into exactly four pieces.
  - Each piece reads back as the number that was written.
  - So the rectangle drawn is the scaled frame, with non-negative width and height for
    well-formed frames.

Behaviour of the source that the model pins down:

- **Android: the label outlives the object and the call.**
  - `labelWithHighestConfidence` is never reset.
  - An object without any label above 0 reports the previous object's label, or the
    label left by an earlier call, with confidence 0.
  - If the detector returned at least one object but no label was ever accepted, the
    promise is neither resolved nor rejected. The call never settles.
  - An empty result rejects with `ObjectError`. If a label survives from an earlier call,
    a later `resolve([])` follows and has no effect.
- **Android: the initial `0.8` of `highestConfidence` is never observed.** It is reset
  to 0 before each object, so `Calls` does not take it as an argument.
- **iOS: the label is a local of the call.** The first objects without a positive label
  report no label. The call rejects with "No Label Found" exactly when no label of the
  call is above 0.
- **iOS: a failed image load settles nothing.** If the URL, the data or the decoding
  fails, neither callback is ever called.

Two behaviours of the code worth noting:

- Only absent asset dimensions default to 1 (`?? 1`). A zero dimension is not
  replaced; the layout is modelled only for positive dimensions (see below).
- A malformed coordinate piece is not reported as an error. `Number()` makes it `NaN`,
  and once an image whose extent on that axis is at least 1 is in state, the rectangle
  carries `NaN` (`Overlay.MalformedPiece`). With no image in state, getScale returns 0
  without using the piece (`Overlay.NoImageCollapses`).

## Model

| member | source | states |
|---|---|---|
| Scaling.GetScale | App.tsx:34-48 | An image extent below 1, including an absent one, gives 0 for any box, scale and offset. Otherwise the result is a number exactly when box is not NaN (an absent box counts as 0). A non-number result is NaN, never `undefined`. It then lies in [box·(scale/image)+offset, box·(scale/image)+offset+1): the ceiling brackets it and the overlay never under-covers. |
| Scaling.DirectionIrrelevant | App.tsx:38-44 | The 'W' and 'H' branches give the same result. |
| Scaling.GetScaleOfNumber | App.tsx:34-43 | For image ≥ 1 and a numeric box, the result is ceil(box·(scale/image)) + offset, with offset defaulting to 0. |
| Scaling.CeilScaledMonotone | App.tsx:40 | ceil(b·(scale/image)) + offset does not decrease in b when scale ≥ 0 and image ≥ 1. |
| Scaling.GetScaleMonotone | App.tsx:40-43 | For image ≥ 1 and scale ≥ 0, getScale is non-decreasing in box. |
| Js.Ceil | App.tsx:40 | Math.ceil returns the integer r with x ≤ r < x + 1. |
| Js.Minus | App.tsx:138-139 | The difference is a number exactly when both operands are, and then it adds back to the minuend. Otherwise it is NaN, never `undefined`. |
| Js.Split | App.tsx:122 | split always returns at least one piece. |
| Js.JoinSplit | App.tsx:122 | Joining the pieces of split gives back the string, and no piece contains the separator. |
| Js.SplitJoin | App.tsx:122 | Splitting the join of separator-free pieces gives back exactly those pieces. |
| Js.ToNumber | App.tsx:127 | Number() never yields `undefined`, and a run of decimal digits (the empty run included) reads as its decimal value. |
| Js.LeadingDigits | App.tsx:127 | The scan for Number() stops at the first non-digit: the prefix is all digits and the next character is not one. |
| Decimal.NatDigitsValue | android/app/src/main/java/com/objdetection/CustomObjectDetectionModule.java:99-101 | The decimal numeral of n is a non-empty run of digits whose value is n. |
| Decimal.IntToString | android/app/src/main/java/com/objdetection/CustomObjectDetectionModule.java:99-100 | Integer.toString is non-empty, starts with '-' exactly for negative values and with '0' exactly for 0. |
| Decimal.NatDigitsLeading | android/app/src/main/java/com/objdetection/CustomObjectDetectionModule.java:99-100 | The numeral of a natural number starts with a digit, and with '0' only for 0: no leading zeros. |
| Decimal.IntToStringShape | android/app/src/main/java/com/objdetection/CustomObjectDetectionModule.java:99-101 | Integer.toString is non-empty, has no space, and is digits optionally preceded by '-'. |
| Wire.FloatText | ios/CustomObjectDetectionModule.swift:66-68 | Swift's text of an integral CGFloat has at least three characters and starts with '-' exactly for negative values. |
| Wire.FloatTextShape | ios/CustomObjectDetectionModule.swift:66-68 | The text of an integral CGFloat has no space and ends in ".0". |
| Wire.NumberOfIntToString | App.tsx:127 | Number() of Integer.toString(n) is n. |
| Wire.NumberOfPointZero | App.tsx:127 | Number() of Swift's "n.0" text is n. |
| Layout.DisplaySize | App.tsx:67-73 | The size is positive, fits the full window width and half the window height, and keeps the asset's aspect ratio (cross-multiplied). It reaches the width bound or the half-height bound. |
| Layout.ImageViewPositive | App.tsx:67 | imageViewHeight is positive and is the window width rescaled by the asset's height/width. |
| Layout.CappedBranch | App.tsx:68-70 | When imageViewHeight exceeds half the window height, imageViewWidth lies in (0, window width] and keeps the aspect ratio at half height. |
| Layout.DisplaySizeIsLargest | App.tsx:67-73 | No aspect-preserving box within the same bounds is wider or taller than the computed size. |
| Overlay.ToRectangle | App.tsx:122-141 | The left edge, width and height are never `undefined`. The top is `undefined` exactly when the string has one piece. A numeric width (height) means at least three (four) pieces, and left + width (top + height) is the third (fourth) scaled piece. |
| Overlay.Drawn | App.tsx:121 | Drawing maps records to boxes one for one, in order. |
| Overlay.DrawnAppend | App.tsx:121 | The boxes drawn for a concatenation are the concatenated boxes. |
| Overlay.Rectangles | App.tsx:121-146 | Exactly one rectangle per detected object, in the same order, each computed from that object's coordinate string. |
| Overlay.RectanglesAppend | App.tsx:121 | The mapping is element-wise: the rectangles of a concatenation are the concatenated rectangles. |
| Overlay.ComponentAxis | App.tsx:123-129 | Pieces 0 and 2 use image.width and imageSize.width; pieces 1 and 3 use image.height and imageSize.height. |
| Overlay.ShortCoordinates | App.tsx:122-141 | With fewer than four pieces the height is NaN; with a single piece the top is undefined and the width is NaN. |
| Overlay.MalformedPiece | App.tsx:122-141 | A first piece that Number() reads as NaN makes the left edge and width NaN when the image width is at least 1. A second piece read as NaN does the same to the top and height when the image height is at least 1. |
| Overlay.NoImageCollapses | App.tsx:122-130 | Before any image is in state, every rectangle of a four-piece string is 0 at 0 with size 0. |
| Bridge.Settle | App.tsx:62-78 | A promise never settles exactly when no call was made. Otherwise it resolves or rejects with the values of the first call. |
| Bridge.SettleIgnoresLater | android/app/src/main/java/com/objdetection/CustomObjectDetectionModule.java:77-105 | Calls after the first do not change how the promise settled. |
| Presentation.App.constructor | App.tsx:51-57 | The initial state: no image, latency 0, no detections, a 0×0 box. |
| Presentation.App.ObjectDetection | App.tsx:61-79 | On resolve, latency becomes (end−start)/1000, the box becomes the display size, and the detections and image are replaced. The boxes drawn are then the scaled records. On reject, only the alert is raised and no state changes. Positive dimensions are required only on the resolve path. A call that never settles changes nothing either. |
| Labelling.PickLabel | android/app/src/main/java/com/objdetection/CustomObjectDetectionModule.java:86-95 | The scan keeps the current choice, or replaces it with one of the object's labels (its text and confidence), whose confidence is strictly higher. |
| Labelling.PickLabelSpec | android/app/src/main/java/com/objdetection/CustomObjectDetectionModule.java:86-95 | The label scan keeps the current best when no label is strictly above it. Otherwise it picks the first label of maximal confidence (strict >). |
| Labelling.ChoicesExtend | android/app/src/main/java/com/objdetection/CustomObjectDetectionModule.java:81-95 | Extending the run by one object appends that object's scan, seeded with the label the run so far left. |
| Labelling.Records | android/app/src/main/java/com/objdetection/CustomObjectDetectionModule.java:96-102 | One record per object, record k built from object k's frame and choice k. |
| Labelling.RecordsExtend | android/app/src/main/java/com/objdetection/CustomObjectDetectionModule.java:102 | Pushing one more record appends exactly that object's record. |
| Labelling.Choices | android/app/src/main/java/com/objdetection/CustomObjectDetectionModule.java:81-103 | One choice per object. |
| Labelling.ChoicesAt | android/app/src/main/java/com/objdetection/CustomObjectDetectionModule.java:81-95 | Object k's choice is its scan with confidence reset to 0 and the label text left by object k−1 (or the one carried in). |
| Labelling.ObjectChoiceSpec | ios/CustomObjectDetectionModule.swift:56-62 | An object's confidence is its maximal label confidence with the first maximal label's text, or 0 with the carried text if no label is above 0. |
| Labelling.LabelAfterChoices | ios/CustomObjectDetectionModule.swift:72 | After the loop, a label is held exactly when one was carried in or some label of the run is above 0. |
| Android.CustomObjectDetectionModule.constructor | android/app/src/main/java/com/objdetection/CustomObjectDetectionModule.java:34-35 | The label field starts null and the confidence 0.8. |
| Android.CustomObjectDetectionModule.StartCustomObjectDetection | android/app/src/main/java/com/objdetection/CustomObjectDetectionModule.java:73-112 | The promise calls are those of `Android.Calls` for the label field's value on entry. The label field ends as the last label chosen, which may come from an earlier call. The confidence field ends as the last object's confidence. |
| Android.CustomObjectDetectionModule.ScanLabels | android/app/src/main/java/com/objdetection/CustomObjectDetectionModule.java:86-95 | The two fields end as the first strictly maximal label above their values on entry, or keep those values. |
| Android.Rect.FlattenToString | android/app/src/main/java/com/objdetection/CustomObjectDetectionModule.java:101 | "left top right bottom" splits on spaces back into exactly the four numerals. |
| Android.Calls | android/app/src/main/java/com/objdetection/CustomObjectDetectionModule.java:73-112 | At most two promise calls. Two only as the `ObjectError` rejection followed by `resolve([])`. None only when objects were detected. |
| Android.Outcome | android/app/src/main/java/com/objdetection/CustomObjectDetectionModule.java:77-112 | A failure rejects ("Error"). An empty result rejects ("ObjectError"), followed by resolve([]) only if a label survives. Otherwise the array is resolved exactly when a label was carried in or some label is above 0, and the promise never settles if not. |
| Android.RecordSpec | android/app/src/main/java/com/objdetection/CustomObjectDetectionModule.java:96-102 | Record k carries the object's maximal label with the first maximal text. An object without a positive label gets confidence 0 and the previous record's label, or for the first record the label from an earlier call. |
| Android.RecordFrame | android/app/src/main/java/com/objdetection/CustomObjectDetectionModule.java:99-101 | Record k carries object k's box flattened, and its width and height as right − left and bottom − top. |
| Android.LabelOutlivesCall | android/app/src/main/java/com/objdetection/CustomObjectDetectionModule.java:93-97 | After a call that picked "Cat", a call whose only object has no label resolves with label "Cat" and confidence 0, whatever that object's box. |
| Ios.StartCustomObjectDetection | ios/CustomObjectDetectionModule.swift:34-81 | The callbacks invoked are those of `Ios.Calls`: none if the image did not load, a rejection on error/nil/empty, and otherwise resolve with the records or reject with "No Label Found". |
| Ios.ScanLabels | ios/CustomObjectDetectionModule.swift:57-62 | The running label and confidence end as the label scan's result from the values on entry. |
| Ios.Coordinates | ios/CustomObjectDetectionModule.swift:68 | "minX minY maxX maxY" splits on spaces back into exactly the four texts. |
| Ios.Calls | ios/CustomObjectDetectionModule.swift:34-81 | At most one callback, and none exactly when the image did not load. |
| Ios.Outcome | ios/CustomObjectDetectionModule.swift:34-81 | At most one callback is made. A failed image load never settles. Error, nil or empty rejects "400"/"No Object Detected". Otherwise the call resolves exactly when some label is above 0, and rejects "400"/"No Label Found" if not. |
| Ios.RecordFrame | ios/CustomObjectDetectionModule.swift:64-68 | Record k carries object k's standardised frame as "minX minY maxX maxY", with width maxX − minX and height maxY − minY. |
| Ios.RecordSpec | ios/CustomObjectDetectionModule.swift:55-70 | Record k carries the object's maximal label with the first maximal text. An object without a positive label gets confidence 0 and the previous record's label, and the first record then has none. |
| Pipeline.ScaledPiece | App.tsx:123-129 | A piece reading as integer v is scaled to ceil(v·(displayExtent/imageExtent)) on its own axis. |
| Pipeline.FourValues | App.tsx:123-129 | Four pieces reading as integers scale, piece by piece and axis by axis, to ceil(v·(displayExtent/imageExtent)). |
| Pipeline.RectangleOfPieces | App.tsx:122-141 | A coordinate string splitting into four integer pieces is drawn as top, left, right−left, bottom−top of the scaled edges. |
| Pipeline.ExpectedBoxNonNegative | App.tsx:138-139 | On a non-negative display box, right ≥ left gives a non-negative drawn width and bottom ≥ top a non-negative drawn height. |
| Pipeline.FourPieces | App.tsx:122-141 | Four separator-free integer pieces joined by spaces give the rectangle of the scaled left, top, right and bottom. |
| Pipeline.AndroidBoxOnScreen | android/app/src/main/java/com/objdetection/CustomObjectDetectionModule.java:101 | The flattened Rect reads back as its edges and is drawn as the scaled box. A Rect with right ≥ left (bottom ≥ top) on a non-negative box has non-negative width (height). |
| Pipeline.IosBoxOnScreen | ios/CustomObjectDetectionModule.swift:68 | The "minX minY maxX maxY" string is drawn as the scaled standardised frame, whose width and height are never negative on a non-negative box. |
| Pipeline.ScaleFullExtent | App.tsx:40 | Scaling the full image extent lands within one pixel above the display extent. |
| Pipeline.FullFrameCovers | App.tsx:121-142 | A frame covering the whole image is drawn at the origin, covering the display box and overshooting by less than one pixel per axis. |
| Pipeline.TallPhotoSize | App.tsx:67-73 | A 400×800 photo in a 1080×2000 window gets a 500×1000 box. |
| Pipeline.TallPhotoBox | App.tsx:121-142 | In that box, the scaled frame (50, 100, 150, 300) is at left 63 and top 125, with width 125 and height 250. With `AndroidBoxOnScreen` this is the rectangle drawn for that Rect. |
| Pipeline.FlattenExample | android/app/src/main/java/com/objdetection/CustomObjectDetectionModule.java:101 | A Rect equal to (0, 0, 100, 200) flattens to "0 0 100 200". |
| Pipeline.HalfScaleBox | App.tsx:121-142 | The frame (0, 0, 100, 200) of a 1000×2000 photo in a 500×1000 box scales to the origin, 50 wide and 100 high. With `FlattenExample` and `AndroidBoxOnScreen` this is the rectangle drawn for "0 0 100 200". |
| Pipeline.HundredsText | android/app/src/main/java/com/objdetection/CustomObjectDetectionModule.java:101 | Integer.toString gives "0", "100" and "200". |

## Left out

- **ML Kit and its inputs.**
  - Detector construction and model loading, `process(...)`, and `InputImage.fromFilePath`
    are library calls. The detector's answer is an input: `Android.Detection`, or
    `Ios.ImageLoad` and `Ios.Callback`.
  - On Android an `IOException` leaves the image null, and `process` is then called with
    `null`. The model assumes ML Kit reports this through the failure listener, and folds
    it into `Detection.Failed`. If it threw before any listener was attached, the promise
    would never settle; that case is not modelled.
- **The React Native bridge and event scheduling.**
  - Promises are modelled as the ordered list of calls, and the outcome is the first one.
  - A second settlement is kept in the list but has no effect.
  - Threading and the time at which the success listener runs are not modelled.
- **I/O and UI.**
  - Image acquisition (`chooseFile`, `openCamera`), JSX rendering, styles, logging and
    `Alert.alert` are not modelled. The alert is the method's return value.
  - The clock readings around the native call are parameters.
  - The window dimensions from `Dimensions.get('window')` are a parameter.
- **Floating point.**
  - Numbers are Dafny reals: no IEEE rounding, no Infinity, no Java float or Swift
    Float/CGFloat precision, and no Java `int` overflow in `Rect.width()`.
  - The confidence is kept as a number, not as the string `"" + highestConfidence` or
    `"\(highestConfidence)"`.
- Js.ToNumber: only the decimal grammar (an optional sign, digits, an optional point with
  further digits) and the empty string are modelled. These are the forms `Integer.toString`
  writes, and the only Swift form modelled (integral frames, see Wire.FloatText). Whitespace
  trimming, exponents, hexadecimal and `Infinity` give NaN here rather than a number.
- Wire.FloatText: Swift's text for a CGFloat is modelled only for integral values ("n.0").
  Fractional frames, and the exponent forms ("1e-05", "1e+16") and "nan"/"inf" that Swift's
  interpolation can write, are not.
- Ios.CGRect: the frame's components are integers. `android.graphics.Rect` is integral
  too, but a CGFloat frame may have a fractional part, and that case is not modelled.
- Layout.DisplaySize: requires positive window dimensions and positive asset dimensions
  when present. A zero dimension divides by zero (`imageViewHeight` or `imageViewWidth`
  becomes Infinity), which real numbers cannot express. Negative dimensions, which the
  image picker does not report, are excluded too; JavaScript would give a finite size.
- Presentation.App.ObjectDetection: on the resolve path, requires the same positive
  dimensions as Layout.DisplaySize, for the same reason. The reject and never-settled
  paths carry no requirement.
- The `default: throw new Error('Wrong Direction!')` branch of `getScale` cannot be reached:
  `Scaling.Direction` has only `W` and `H`.
- **Label texts are non-null strings.** A null text from ML Kit is not modelled.
