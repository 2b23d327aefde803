/**
 * The Android native module: the success and failure listeners of
 * startCustomObjectDetection. The running best label and confidence are
 * fields of the module object, so the label text survives from one object
 * to the next and from one call to the next.
 */
module Android {
  import opened Wrappers
  import opened Decimal
  import opened Js
  import opened Bridge
  import opened Labelling

  /** android.graphics.Rect: integer edges. */
  datatype Rect = Rect(left: int, top: int, right: int, bottom: int) {
    function Width(): int { right - left }
    function Height(): int { bottom - top }

    /** Rect.flattenToString: "left top right bottom", which splits on spaces back into the four numerals. */
    function FlattenToString(): (r: string)
      ensures Split(r, ' ') == [IntToString(left), IntToString(top), IntToString(right), IntToString(bottom)]
    {
      var parts := [IntToString(left), IntToString(top), IntToString(right), IntToString(bottom)];
      IntToStringShape(left);
      IntToStringShape(top);
      IntToStringShape(right);
      IntToStringShape(bottom);
      SplitJoin(parts, ' ');
      Join(parts, ' ')
    }
  }

  /** What the detector's task reports: the detected objects, or a failure. */
  datatype Detection = Succeeded(results: seq<DetectedObject<Rect>>) | Failed

  const NoObjects := "No Objects Detected"

  /** The map pushed for one object. */
  function MakeRecord(box: Rect, choice: Choice): Record {
    Record(choice.text, choice.confidence, IntToString(box.Width()), IntToString(box.Height()), box.FlattenToString())
  }

  /** The response array: one map per detected object, in detector order. */
  function ResponseArray(results: seq<DetectedObject<Rect>>, carried: Option<string>): seq<Record>
  {
    Records(results, Choices(results, carried), MakeRecord)
  }

  /**
   * The promise calls of one invocation, given the label field's value on
   * entry: at most two, two only as a rejection followed by an empty
   * resolve, and none only when objects were detected.
   */
  function Calls(detection: Detection, carried: Option<string>): (calls: seq<PromiseCall>)
    ensures |calls| <= 2
    ensures |calls| == 2 ==> calls == [Reject("ObjectError", NoObjects), Resolve([])]
    ensures |calls| == 0 ==> detection.Succeeded? && |detection.results| > 0
  {
    match detection
    case Failed => [Reject("Error", NoObjects)]
    case Succeeded(results) =>
      (if |results| == 0 then [Reject("ObjectError", NoObjects)] else [])
      + (if LabelAfter(Choices(results, carried), carried).Some?
         then [Resolve(ResponseArray(results, carried))] else [])
  }

  /** The label field after one invocation. */
  function LabelAfterCall(detection: Detection, carried: Option<string>): Option<string>
  {
    match detection
    case Failed => carried
    case Succeeded(results) => LabelAfter(Choices(results, carried), carried)
  }

  /** The confidence field after one invocation: the last object's choice, if there was an object. */
  function ConfidenceAfterCall(detection: Detection, carried: Option<string>, confidence: real): real
  {
    match detection
    case Failed => confidence
    case Succeeded(results) =>
      if |results| == 0 then confidence else Choices(results, carried)[|results| - 1].confidence
  }

  class CustomObjectDetectionModule {
    var labelWithHighestConfidence: Option<string>
    var highestConfidence: real

    constructor ()
      ensures labelWithHighestConfidence == None && highestConfidence == 0.8
    {
      labelWithHighestConfidence := None;
      highestConfidence := 0.8;
    }

    /** The inner loop over one object's labels: a strictly higher confidence replaces both fields. */
    method ScanLabels(labels: seq<Label>)
      modifies this
      ensures Choice(labelWithHighestConfidence, highestConfidence)
           == PickLabel(labels, Choice(old(labelWithHighestConfidence), old(highestConfidence)))
    {
      var j := 0;
      while j < |labels|
        invariant 0 <= j <= |labels|
        invariant PickLabel(labels[j..], Choice(labelWithHighestConfidence, highestConfidence))
               == PickLabel(labels, Choice(old(labelWithHighestConfidence), old(highestConfidence)))
      {
        var candidate := labels[j];
        if candidate.confidence > highestConfidence {
          highestConfidence := candidate.confidence;
          labelWithHighestConfidence := Some(candidate.text);
        }
        assert labels[j..][1..] == labels[j + 1..];
        j := j + 1;
      }
    }

    method StartCustomObjectDetection(detection: Detection) returns (calls: seq<PromiseCall>)
      modifies this
      ensures calls == Calls(detection, old(labelWithHighestConfidence))
      ensures labelWithHighestConfidence == LabelAfterCall(detection, old(labelWithHighestConfidence))
      ensures highestConfidence == ConfidenceAfterCall(detection, old(labelWithHighestConfidence), old(highestConfidence))
    {
      match detection
      case Failed =>
        calls := [Reject("Error", NoObjects)];
      case Succeeded(results) =>
        calls := [];
        if |results| == 0 {
          calls := calls + [Reject("ObjectError", NoObjects)];
        }
        ghost var carried := labelWithHighestConfidence;
        var responseArray: seq<Record> := [];
        var i := 0;
        while i < |results|
          invariant 0 <= i <= |results|
          invariant responseArray == Records(results[..i], Choices(results[..i], carried), MakeRecord)
          invariant labelWithHighestConfidence == LabelAfter(Choices(results[..i], carried), carried)
          invariant i > 0 ==> highestConfidence == Choices(results[..i], carried)[i - 1].confidence
          invariant i == 0 ==> highestConfidence == old(highestConfidence)
        {
          highestConfidence := 0.0;
          var boundingBox := results[i].frame;
          var labels := results[i].labels;
          ScanLabels(labels);
          ChoicesExtend(results, carried, i);
          RecordsExtend(results, Choices(results[..i], carried), Choice(labelWithHighestConfidence, highestConfidence), MakeRecord, i);
          responseArray := responseArray + [MakeRecord(boundingBox, Choice(labelWithHighestConfidence, highestConfidence))];
          i := i + 1;
        }
        assert results[..i] == results;
        if labelWithHighestConfidence.Some? {
          calls := calls + [Resolve(responseArray)];
        }
    }
  }

  /**
   * How the JavaScript promise settles. A failure rejects with "Error"; an
   * empty result rejects with "ObjectError" (and, when a label survives from
   * an earlier call, a second resolve with an empty array follows and has no
   * effect); otherwise the array is resolved exactly when a label was carried
   * in or some label is above 0, and the promise never settles if not.
   */
  lemma Outcome(detection: Detection, carried: Option<string>)
    ensures detection.Failed? ==> Calls(detection, carried) == [Reject("Error", NoObjects)]
    ensures detection == Succeeded([]) ==>
      Calls(detection, carried) == [Reject("ObjectError", NoObjects)] + (if carried.Some? then [Resolve([])] else [])
    ensures detection.Succeeded? && |detection.results| > 0 ==>
      Settle(Calls(detection, carried)) ==
        if carried.Some? || AnyPositive(detection.results)
        then Resolved(ResponseArray(detection.results, carried))
        else NeverSettled
  {
    if detection.Succeeded? {
      LabelAfterChoices(detection.results, carried);
      if detection.results == [] {
        assert ResponseArray([], carried) == [];
      }
    }
  }

  /** Record `k` carries object `k`'s box: flattened, and its width and height. */
  lemma RecordFrame(results: seq<DetectedObject<Rect>>, carried: Option<string>, k: nat)
    requires k < |results|
    ensures |ResponseArray(results, carried)| == |results|
    ensures var r := ResponseArray(results, carried)[k];
      && r.cordinates == results[k].frame.FlattenToString()
      && r.width == IntToString(results[k].frame.right - results[k].frame.left)
      && r.height == IntToString(results[k].frame.bottom - results[k].frame.top)
  {
    var box := results[k].frame;
    assert ResponseArray(results, carried)[k] == MakeRecord(box, Choices(results, carried)[k]);
    assert box.Width() == box.right - box.left && box.Height() == box.bottom - box.top;
  }

  /**
   * Record `k` reports object `k`'s maximal label confidence with the first
   * label attaining it; an object with no label above 0 reports confidence 0
   * and the label of the record before it (or, for the first record, the
   * label left by an earlier call).
   */
  lemma {:induction false} RecordSpec(results: seq<DetectedObject<Rect>>, carried: Option<string>, k: nat)
    requires k < |results|
    ensures |ResponseArray(results, carried)| == |results|
    ensures NoneAbove(results[k].labels, 0.0) ==>
      ResponseArray(results, carried)[k].lable == (if k == 0 then carried else ResponseArray(results, carried)[k - 1].lable)
      && ResponseArray(results, carried)[k].confidence == 0.0
    ensures !NoneAbove(results[k].labels, 0.0) ==>
      exists j :: FirstMaximal(results[k].labels, j, 0.0)
        && ResponseArray(results, carried)[k].lable == Some(results[k].labels[j].text)
        && ResponseArray(results, carried)[k].confidence == results[k].labels[j].confidence
  {
    var cs := Choices(results, carried);
    assert ResponseArray(results, carried)[k].lable == cs[k].text;
    assert ResponseArray(results, carried)[k].confidence == cs[k].confidence;
    if k > 0 {
      assert ResponseArray(results, carried)[k - 1].lable == cs[k - 1].text;
    }
    ChoicesAt(results, carried, k);
    ObjectChoiceSpec(results[k].labels, CarriedInto(results, carried, k));
  }

  /**
   * The label field outlives a call: after a call that saw "Cat" at 0.9, a
   * call whose only object carries no label still resolves, and reports
   * "Cat" with confidence 0 for that object, whatever its box.
   */
  lemma LabelOutlivesCall(box: Rect)
    ensures LabelAfterCall(Succeeded([DetectedObject(box, [Label("Cat", 0.9)])]), None) == Some("Cat")
    ensures Calls(Succeeded([DetectedObject(box, [])]), Some("Cat"))
      == [Resolve([Record(Some("Cat"), 0.0, IntToString(box.Width()), IntToString(box.Height()), box.FlattenToString())])]
  {
    var first := [DetectedObject(box, [Label("Cat", 0.9)])];
    assert Choices(first, None) == [Choice(Some("Cat"), 0.9)];
    var second := [DetectedObject(box, [])];
    assert Choices(second, Some("Cat")) == [Choice(Some("Cat"), 0.0)];
    assert ResponseArray(second, Some("Cat")) == [MakeRecord(box, Choice(Some("Cat"), 0.0))];
  }
}
