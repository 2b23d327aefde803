/**
 * The label selection both native modules share: for each object, the
 * confidence is reset to 0 and the labels are scanned in order, and a label
 * replaces the current choice only when its confidence is strictly greater.
 * The chosen label text is carried from one object to the next and is not
 * reset, so an object with no label above 0 reports the text chosen before it.
 */
module Labelling {
  import opened Wrappers
  import opened Bridge

  /** The running best: label text (possibly none yet) and confidence. */
  datatype Choice = Choice(text: Option<string>, confidence: real)

  /**
   * The inner loop over one object's labels, starting from `best`: the
   * choice changes only to a label with a strictly higher confidence.
   */
  function PickLabel(labels: seq<Label>, best: Choice): (r: Choice)
    ensures r == best || (r.confidence > best.confidence && r.text.Some?)
    ensures r == best || exists j :: 0 <= j < |labels| && r == Choice(Some(labels[j].text), labels[j].confidence)
  {
    if |labels| == 0 then best
    else
      var next := if labels[0].confidence > best.confidence
        then Choice(Some(labels[0].text), labels[0].confidence)
        else best;
      PickLabel(labels[1..], next)
  }

  /** No label's confidence exceeds `floor`. */
  ghost predicate NoneAbove(labels: seq<Label>, floor: real) {
    forall j :: 0 <= j < |labels| ==> labels[j].confidence <= floor
  }

  /**
   * Label `k` exceeds `floor`, attains the maximum confidence, and is the
   * first label to do so.
   */
  ghost predicate FirstMaximal(labels: seq<Label>, k: int, floor: real) {
    && 0 <= k < |labels|
    && labels[k].confidence > floor
    && (forall j :: 0 <= j < k ==> labels[j].confidence < labels[k].confidence)
    && (forall j :: k < j < |labels| ==> labels[j].confidence <= labels[k].confidence)
  }

  /**
   * The scan keeps `best` when no label is strictly above it, and otherwise
   * picks the first label of maximal confidence.
   */
  lemma {:induction false} PickLabelSpec(labels: seq<Label>, best: Choice)
    decreases |labels|, 1
    ensures NoneAbove(labels, best.confidence) ==> PickLabel(labels, best) == best
    ensures !NoneAbove(labels, best.confidence) ==>
      exists k :: FirstMaximal(labels, k, best.confidence)
        && PickLabel(labels, best) == Choice(Some(labels[k].text), labels[k].confidence)
  {
    if |labels| > 0 {
      if labels[0].confidence > best.confidence {
        PickLabelTaken(labels, best);
      } else {
        PickLabelSkipped(labels, best);
      }
    }
  }

  /** A first label above `best` is taken, and the scan then ends on the first maximal label. */
  lemma {:induction false} PickLabelTaken(labels: seq<Label>, best: Choice)
    requires |labels| > 0 && labels[0].confidence > best.confidence
    decreases |labels|, 0
    ensures exists k ::
      FirstMaximal(labels, k, best.confidence)
      && PickLabel(labels, best) == Choice(Some(labels[k].text), labels[k].confidence)
  {
    var rest := labels[1..];
    var first := labels[0];
    var next := Choice(Some(first.text), first.confidence);
    PickLabelSpec(rest, next);
    if NoneAbove(rest, next.confidence) {
      assert FirstMaximal(labels, 0, best.confidence) by {
        forall j | 0 < j < |labels| ensures labels[j].confidence <= first.confidence {
          assert labels[j] == rest[j - 1];
        }
      }
    } else {
      var k :| FirstMaximal(rest, k, next.confidence)
        && PickLabel(rest, next) == Choice(Some(rest[k].text), rest[k].confidence);
      assert FirstMaximal(labels, k + 1, best.confidence) by {
        forall j | 0 <= j < k + 1 ensures labels[j].confidence < labels[k + 1].confidence {
          if j > 0 { assert labels[j] == rest[j - 1]; }
        }
        forall j | k + 1 < j < |labels| ensures labels[j].confidence <= labels[k + 1].confidence {
          assert labels[j] == rest[j - 1];
        }
      }
    }
  }

  /** A first label not above `best` is skipped: the scan behaves as on the remaining labels. */
  lemma {:induction false} PickLabelSkipped(labels: seq<Label>, best: Choice)
    requires |labels| > 0 && labels[0].confidence <= best.confidence
    decreases |labels|, 0
    ensures NoneAbove(labels, best.confidence) ==> PickLabel(labels, best) == best
    ensures !NoneAbove(labels, best.confidence) ==>
      exists k :: FirstMaximal(labels, k, best.confidence)
        && PickLabel(labels, best) == Choice(Some(labels[k].text), labels[k].confidence)
  {
    var rest := labels[1..];
    PickLabelSpec(rest, best);
    if NoneAbove(rest, best.confidence) {
      assert NoneAbove(labels, best.confidence) by {
        forall j | 0 < j < |labels| ensures labels[j].confidence <= best.confidence {
          assert labels[j] == rest[j - 1];
        }
      }
    } else {
      assert !NoneAbove(labels, best.confidence) by {
        var j :| 0 <= j < |rest| && rest[j].confidence > best.confidence;
        assert labels[j + 1] == rest[j];
      }
      var k :| FirstMaximal(rest, k, best.confidence)
        && PickLabel(rest, best) == Choice(Some(rest[k].text), rest[k].confidence);
      assert FirstMaximal(labels, k + 1, best.confidence) by {
        forall j | 0 <= j < k + 1 ensures labels[j].confidence < labels[k + 1].confidence {
          if j > 0 { assert labels[j] == rest[j - 1]; }
        }
        forall j | k + 1 < j < |labels| ensures labels[j].confidence <= labels[k + 1].confidence {
          assert labels[j] == rest[j - 1];
        }
      }
      assert PickLabel(labels, best) == Choice(Some(labels[k + 1].text), labels[k + 1].confidence);
    }
  }

  /** One object's choice: confidence reset to 0, label text carried in. */
  function ObjectChoice(labels: seq<Label>, carried: Option<string>): Choice
  {
    PickLabel(labels, Choice(carried, 0.0))
  }

  /** The label text held after a run of choices, or `carried` if there were none. */
  function LabelAfter(cs: seq<Choice>, carried: Option<string>): Option<string>
  {
    if |cs| == 0 then carried else cs[|cs| - 1].text
  }

  /** The choices for a run of objects, in order, each seeing the label its predecessor left. */
  function Choices<F>(objects: seq<DetectedObject<F>>, carried: Option<string>): (cs: seq<Choice>)
    ensures |cs| == |objects|
  {
    if |objects| == 0 then []
    else
      var front := Choices(objects[..|objects| - 1], carried);
      front + [ObjectChoice(objects[|objects| - 1].labels, LabelAfter(front, carried))]
  }

  /** The label text carried into object `k`. */
  function CarriedInto<F>(objects: seq<DetectedObject<F>>, carried: Option<string>, k: nat): Option<string>
    requires k <= |objects|
  {
    if k == 0 then carried else Choices(objects, carried)[k - 1].text
  }

  /** Choice `k` is the scan of object `k` seeded with what choice `k - 1` left. */
  lemma {:induction false} ChoicesAt<F>(objects: seq<DetectedObject<F>>, carried: Option<string>, k: nat)
    requires k < |objects|
    ensures Choices(objects, carried)[k] == ObjectChoice(objects[k].labels, CarriedInto(objects, carried, k))
  {
    var n := |objects|;
    var front := objects[..n - 1];
    if k < n - 1 {
      ChoicesAt(front, carried, k);
      assert front[k] == objects[k];
    }
  }

  /** Extending a run by its next object appends that object's choice, seeded with the label the run left. */
  lemma ChoicesExtend<F>(objects: seq<DetectedObject<F>>, carried: Option<string>, i: nat)
    requires i < |objects|
    ensures objects[..i + 1][..i] == objects[..i]
    ensures Choices(objects[..i + 1], carried)
         == Choices(objects[..i], carried) + [ObjectChoice(objects[i].labels, LabelAfter(Choices(objects[..i], carried), carried))]
  {
    assert objects[..i + 1][..i] == objects[..i];
  }

  /** The records of a run: `make` applied to each object's frame and its choice, in detector order. */
  function Records<F>(objects: seq<DetectedObject<F>>, cs: seq<Choice>, make: (F, Choice) -> Record): (records: seq<Record>)
    requires |cs| == |objects|
    ensures |records| == |objects|
    ensures forall k :: 0 <= k < |objects| ==> records[k] == make(objects[k].frame, cs[k])
  {
    seq(|objects|, k requires 0 <= k < |objects| => make(objects[k].frame, cs[k]))
  }

  /** Pushing the next object's record extends the records of the run so far. */
  lemma RecordsExtend<F>(objects: seq<DetectedObject<F>>, cs: seq<Choice>, c: Choice, make: (F, Choice) -> Record, i: nat)
    requires i < |objects| && |cs| == i
    ensures Records(objects[..i + 1], cs + [c], make) == Records(objects[..i], cs, make) + [make(objects[i].frame, c)]
  {
    var lhs := Records(objects[..i + 1], cs + [c], make);
    var rhs := Records(objects[..i], cs, make) + [make(objects[i].frame, c)];
    forall k | 0 <= k < i + 1 ensures lhs[k] == rhs[k] {
      if k < i {
        assert objects[..i + 1][k] == objects[..i][k];
      }
    }
  }

  /** Some label anywhere in the run has a confidence above 0. */
  ghost predicate AnyPositive<F>(objects: seq<DetectedObject<F>>) {
    exists k, j :: 0 <= k < |objects| && 0 <= j < |objects[k].labels| && objects[k].labels[j].confidence > 0.0
  }

  /**
   * The confidence is the object's maximal label confidence, or 0; the label
   * is that of the first maximal label when one is above 0, and otherwise
   * the one carried in.
   */
  lemma ObjectChoiceSpec(labels: seq<Label>, carried: Option<string>)
    ensures NoneAbove(labels, 0.0) ==> ObjectChoice(labels, carried) == Choice(carried, 0.0)
    ensures !NoneAbove(labels, 0.0) ==>
      exists k :: FirstMaximal(labels, k, 0.0)
        && ObjectChoice(labels, carried) == Choice(Some(labels[k].text), labels[k].confidence)
  {
    PickLabelSpec(labels, Choice(carried, 0.0));
  }

  /**
   * At the end of a run a label text is held exactly when one was carried in
   * or some label of the run was above 0.
   */
  lemma {:induction false} LabelAfterChoices<F>(objects: seq<DetectedObject<F>>, carried: Option<string>)
    ensures LabelAfter(Choices(objects, carried), carried).Some? <==> carried.Some? || AnyPositive(objects)
  {
    var n := |objects|;
    if n > 0 {
      var front := objects[..n - 1];
      var last := objects[n - 1];
      LabelAfterChoices(front, carried);
      var before := LabelAfter(Choices(front, carried), carried);
      ObjectChoiceSpec(last.labels, before);
      var after := LabelAfter(Choices(objects, carried), carried);
      assert after == ObjectChoice(last.labels, before).text;
      if AnyPositive(front) {
        var k, j :| 0 <= k < |front| && 0 <= j < |front[k].labels| && front[k].labels[j].confidence > 0.0;
        assert objects[k] == front[k];
      }
      if !NoneAbove(last.labels, 0.0) {
        var j :| 0 <= j < |last.labels| && last.labels[j].confidence > 0.0;
        assert objects[n - 1].labels[j].confidence > 0.0;
      }
      if AnyPositive(objects) {
        var k, j :| 0 <= k < n && 0 <= j < |objects[k].labels| && objects[k].labels[j].confidence > 0.0;
        if k < n - 1 {
          assert front[k] == objects[k];
        } else {
          assert last.labels[j].confidence > 0.0;
        }
      }
    }
  }
}
