/**
 * The iOS native module: startCustomObjectDetection after the image has been
 * loaded and the detector has called back. The running best label and
 * confidence are locals of the call: the label text starts absent on every
 * call and is carried from one object to the next within it.
 */
module Ios {
  import opened Wrappers
  import opened Js
  import opened Wire
  import opened Bridge
  import opened Labelling

  /**
   * A CGRect: an origin and a size whose components may be negative. Its
   * extreme coordinates and its width and height are those of the
   * standardised rectangle.
   */
  datatype CGRect = CGRect(x: int, y: int, width: int, height: int) {
    function MinX(): int { if width < 0 then x + width else x }
    function MaxX(): int { if width < 0 then x else x + width }
    function MinY(): int { if height < 0 then y + height else y }
    function MaxY(): int { if height < 0 then y else y + height }
    function Width(): int { if width < 0 then -width else width }
    function Height(): int { if height < 0 then -height else height }
  }

  /** How far the image got before detection: the URL, the data or the decoding can fail. */
  datatype ImageLoad = InvalidUrl | Unreadable | NotAnImage | Loaded

  /** The arguments of the detector's completion handler: the objects (or nil) and whether an error was passed. */
  datatype Callback = Callback(objects: Option<seq<DetectedObject<CGRect>>>, failed: bool)

  const NoObject := "No Object Detected"
  const NoLabel := "No Label Found"

  /** "\(minX) \(minY) \(maxX) \(maxY)", which splits on spaces back into the four texts. */
  function Coordinates(frame: CGRect): (r: string)
    ensures Split(r, ' ') == [FloatText(frame.MinX()), FloatText(frame.MinY()), FloatText(frame.MaxX()), FloatText(frame.MaxY())]
  {
    var parts := [FloatText(frame.MinX()), FloatText(frame.MinY()), FloatText(frame.MaxX()), FloatText(frame.MaxY())];
    FloatTextShape(frame.MinX());
    FloatTextShape(frame.MinY());
    FloatTextShape(frame.MaxX());
    FloatTextShape(frame.MaxY());
    SplitJoin(parts, ' ');
    Join(parts, ' ')
  }

  /** The dictionary added for one object. */
  function MakeRecord(frame: CGRect, choice: Choice): Record
  {
    Record(choice.text, choice.confidence, FloatText(frame.Width()), FloatText(frame.Height()), Coordinates(frame))
  }

  /** The response array: one dictionary per detected object, in detector order, the label starting absent. */
  function ResponseArray(objects: seq<DetectedObject<CGRect>>): seq<Record>
  {
    Records(objects, Choices(objects, None), MakeRecord)
  }

  /** The promise calls of one invocation: at most one, and none exactly when the image did not load. */
  function Calls(load: ImageLoad, callback: Callback): (calls: seq<PromiseCall>)
    ensures |calls| <= 1
    ensures |calls| == 0 <==> !load.Loaded?
  {
    if !load.Loaded? then []
    else if callback.failed || callback.objects.None? || |callback.objects.value| == 0 then
      [Reject("400", NoObject)]
    else
      var objects := callback.objects.value;
      if LabelAfter(Choices(objects, None), None).Some? then [Resolve(ResponseArray(objects))]
      else [Reject("400", NoLabel)]
  }

  /** The inner loop over one object's labels: a strictly higher confidence replaces both locals. */
  method ScanLabels(labels: seq<Label>, label0: Option<string>, confidence0: real)
    returns (highestConfidenceLabel: Option<string>, highestConfidence: real)
    ensures Choice(highestConfidenceLabel, highestConfidence) == PickLabel(labels, Choice(label0, confidence0))
  {
    highestConfidenceLabel, highestConfidence := label0, confidence0;
    var j := 0;
    while j < |labels|
      invariant 0 <= j <= |labels|
      invariant PickLabel(labels[j..], Choice(highestConfidenceLabel, highestConfidence))
             == PickLabel(labels, Choice(label0, confidence0))
    {
      var candidate := labels[j];
      if candidate.confidence > highestConfidence {
        highestConfidence := candidate.confidence;
        highestConfidenceLabel := Some(candidate.text);
      }
      assert labels[j..][1..] == labels[j + 1..];
      j := j + 1;
    }
  }

  method StartCustomObjectDetection(load: ImageLoad, callback: Callback) returns (calls: seq<PromiseCall>)
    ensures calls == Calls(load, callback)
  {
    calls := [];
    if !load.Loaded? {
      return;
    }
    if callback.failed || callback.objects.None? || |callback.objects.value| == 0 {
      calls := [Reject("400", NoObject)];
      return;
    }
    var objects := callback.objects.value;
    var highestConfidenceLabel: Option<string> := None;
    var highestConfidence := 0.0;
    var responseArray: seq<Record> := [];
    var i := 0;
    while i < |objects|
      invariant 0 <= i <= |objects|
      invariant responseArray == Records(objects[..i], Choices(objects[..i], None), MakeRecord)
      invariant highestConfidenceLabel == LabelAfter(Choices(objects[..i], None), None)
    {
      highestConfidence := 0.0;
      var labels := objects[i].labels;
      highestConfidenceLabel, highestConfidence := ScanLabels(labels, highestConfidenceLabel, highestConfidence);
      ChoicesExtend(objects, None, i);
      RecordsExtend(objects, Choices(objects[..i], None), Choice(highestConfidenceLabel, highestConfidence), MakeRecord, i);
      responseArray := responseArray + [MakeRecord(objects[i].frame, Choice(highestConfidenceLabel, highestConfidence))];
      i := i + 1;
    }
    assert objects[..i] == objects;
    if highestConfidenceLabel.Some? {
      calls := [Resolve(responseArray)];
    } else {
      calls := [Reject("400", NoLabel)];
    }
  }

  /**
   * The promise is settled at most once. Nothing happens if the image could
   * not be loaded; an error, nil or an empty list rejects with "No Object
   * Detected"; otherwise the records are resolved exactly when some label
   * of the call is above 0, and the call rejects with "No Label Found" if not.
   */
  lemma Outcome(load: ImageLoad, callback: Callback)
    ensures |Calls(load, callback)| <= 1
    ensures !load.Loaded? ==> Settle(Calls(load, callback)) == NeverSettled
    ensures load.Loaded? && (callback.failed || callback.objects.None? || callback.objects == Some([])) ==>
      Settle(Calls(load, callback)) == Rejected("400", NoObject)
    ensures load.Loaded? && !callback.failed && callback.objects.Some? && |callback.objects.value| > 0 ==>
      Settle(Calls(load, callback)) ==
        if AnyPositive(callback.objects.value) then Resolved(ResponseArray(callback.objects.value))
        else Rejected("400", NoLabel)
  {
    if callback.objects.Some? {
      LabelAfterChoices(callback.objects.value, None);
    }
  }

  /** Record `k` carries object `k`'s standardised frame: its corners and its extents. */
  lemma RecordFrame(objects: seq<DetectedObject<CGRect>>, k: nat)
    requires k < |objects|
    ensures |ResponseArray(objects)| == |objects|
    ensures var r := ResponseArray(objects)[k];
      && r.cordinates == Coordinates(objects[k].frame)
      && r.width == FloatText(objects[k].frame.MaxX() - objects[k].frame.MinX())
      && r.height == FloatText(objects[k].frame.MaxY() - objects[k].frame.MinY())
  {
    var f := objects[k].frame;
    assert f.Width() == f.MaxX() - f.MinX() && f.Height() == f.MaxY() - f.MinY();
    assert ResponseArray(objects)[k] == MakeRecord(f, Choices(objects, None)[k]);
  }

  /**
   * Record `k` reports object `k`'s maximal label confidence with the first
   * label attaining it; an object with no label above 0 reports confidence 0
   * and the label of the record before it, and the first record then has no
   * label.
   */
  lemma {:induction false} RecordSpec(objects: seq<DetectedObject<CGRect>>, k: nat)
    requires k < |objects|
    ensures |ResponseArray(objects)| == |objects|
    ensures NoneAbove(objects[k].labels, 0.0) ==>
      ResponseArray(objects)[k].lable == (if k == 0 then None else ResponseArray(objects)[k - 1].lable)
      && ResponseArray(objects)[k].confidence == 0.0
    ensures !NoneAbove(objects[k].labels, 0.0) ==>
      exists j :: FirstMaximal(objects[k].labels, j, 0.0)
        && ResponseArray(objects)[k].lable == Some(objects[k].labels[j].text)
        && ResponseArray(objects)[k].confidence == objects[k].labels[j].confidence
  {
    var cs := Choices(objects, None);
    assert ResponseArray(objects)[k].lable == cs[k].text;
    assert ResponseArray(objects)[k].confidence == cs[k].confidence;
    if k > 0 {
      assert ResponseArray(objects)[k - 1].lable == cs[k - 1].text;
    }
    ChoicesAt(objects, None, k);
    ObjectChoiceSpec(objects[k].labels, CarriedInto(objects, None, k));
  }
}
