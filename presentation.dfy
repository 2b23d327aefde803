/**
 * The app's presentation state and objectDetection, which awaits the native
 * module and then replaces the latency, the display size, the detections and
 * the image; a rejected call only raises an alert.
 */
module Presentation {
  import opened Wrappers
  import opened Layout
  import opened Bridge
  import opened Overlay

  const AlertMessage := "No Object Detected"

  class App {
    var image: Option<Asset>
    var latency: real
    var detectedObjects: seq<Record>
    var imageSize: Size

    /** The initial state of the four useState hooks. */
    constructor ()
      ensures image == None && latency == 0.0 && detectedObjects == [] && imageSize == Size(0.0, 0.0)
    {
      image := None;
      latency := 0.0;
      detectedObjects := [];
      imageSize := Size(0.0, 0.0);
    }

    /** The overlay boxes rendered for the current state. */
    function Boxes(): seq<Rectangle>
      reads this
    {
      Rectangles(detectedObjects, image, imageSize)
    }

    /**
     * One detection run. `response` is how the native call settled and
     * `start`, `end` the clock readings (in milliseconds) around it. The
     * returned alert message is present exactly when the call was rejected.
     */
    method ObjectDetection(asset: Asset, response: Outcome, start: real, end: real, window: Window)
      returns (alert: Option<string>)
      requires response.Resolved? ==> Positive(asset, window)
      modifies this
      ensures alert == (if response.Rejected? then Some(AlertMessage) else None)
      ensures response.Resolved? ==>
        && latency == (end - start) / 1000.0
        && imageSize == DisplaySize(asset, window)
        && detectedObjects == response.value
        && image == Some(asset)
      ensures response.Resolved? ==> Boxes() == Rectangles(response.value, Some(asset), DisplaySize(asset, window))
      ensures !response.Resolved? ==> unchanged(this)
    {
      match response
      case NeverSettled =>
        alert := None;
      case Rejected(_, _) =>
        alert := Some(AlertMessage);
      case Resolved(res) =>
        latency := (end - start) / 1000.0;
        imageSize := DisplaySize(asset, window);
        detectedObjects := res;
        image := Some(asset);
        alert := None;
    }
  }
}
