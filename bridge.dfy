/**
 * What crosses the native bridge: the detector's output as the native
 * modules see it, the record each module emits per object, and the promise
 * through which the result reaches JavaScript.
 */
module Bridge {
  import opened Wrappers

  /** One candidate classification of a detected object. */
  datatype Label = Label(text: string, confidence: real)

  /** A detected object: its frame in the platform's rectangle type and its candidate labels. */
  datatype DetectedObject<F> = DetectedObject(frame: F, labels: seq<Label>)

  /**
   * One element of the array handed to JavaScript. The field names follow
   * the wire keys, misspellings included ("lable", "cordinates"); an absent
   * label is a null value on Android and a missing key on iOS.
   */
  datatype Record = Record(lable: Option<string>, confidence: real, width: string, height: string, cordinates: string)

  /** One call a native module makes on the promise it was given. */
  datatype PromiseCall = Resolve(records: seq<Record>) | Reject(code: string, message: string)

  /** What the awaiting JavaScript code observes. */
  datatype Outcome = Resolved(value: seq<Record>) | Rejected(code: string, message: string) | NeverSettled

  /**
   * A promise settles with its first resolve or reject call; later calls
   * have no effect, and without any call it never settles.
   */
  function Settle(calls: seq<PromiseCall>): (r: Outcome)
    ensures r.NeverSettled? <==> |calls| == 0
    ensures r.Resolved? ==> calls[0] == Resolve(r.value)
    ensures r.Rejected? ==> calls[0] == Reject(r.code, r.message)
  {
    if |calls| == 0 then NeverSettled
    else match calls[0]
      case Resolve(records) => Resolved(records)
      case Reject(code, message) => Rejected(code, message)
  }

  /** Once a promise has been settled, further resolve or reject calls do not change its outcome. */
  lemma SettleIgnoresLater(calls: seq<PromiseCall>, later: seq<PromiseCall>)
    requires |calls| > 0
    ensures Settle(calls + later) == Settle(calls)
  {
    assert (calls + later)[0] == calls[0];
  }
}
