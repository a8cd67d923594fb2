/**
 * The first controller (src/com/plasmoxy/cvfxapp): the camera / render state
 * machine and tick of the later variants, with a single status label that
 * the render start and stop write directly, and no info text or registry.
 */
module SrcAppController {
  import opened Camera
  import opened Render

  const ACTIVE_STATUS := "- Rendering active -"
  const STOPPED_STATUS := "- Rendering stopped -"

  /** The status label's text while rendering is active or stopped. */
  function StatusText(active: bool): (t: string)
    ensures t == ACTIVE_STATUS <==> active
  {
    if active then ACTIVE_STATUS else STOPPED_STATUS
  }

  class Controller {
    var cameraActive: bool
    var cameraID: int
    /** Whether the capture device reports itself open. */
    var captureOpen: bool
    var timer: Timer
    var cameraButtonText: string
    /** The text of `infoLabelA`. */
    var statusText: string
    /** The calls made on the capture device and the timer, oldest first. */
    var calls: seq<DeviceCall>
    var renderMainActive: bool
    var renderAlphaActive: bool
    var renderBetaActive: bool

    /** The camera state machine's view of the fields. */
    ghost function Cam(): CameraState
      reads this
    {
      CameraState(cameraActive, cameraID, captureOpen, timer, cameraButtonText)
    }

    ghost predicate Valid()
      reads this
    {
      Consistent(Cam())
    }

    /** The field initialisers; Main renders by default. */
    constructor ()
      ensures Valid()
      ensures renderMainActive && !renderAlphaActive && !renderBetaActive
      ensures Cam() == CameraState(false, 0, false, NoTimer, "") && calls == [] && statusText == ""
    {
      cameraActive, cameraID, captureOpen, timer, cameraButtonText := false, 0, false, NoTimer, "";
      statusText := "";
      calls := [];
      renderMainActive, renderAlphaActive, renderBetaActive := true, false, false;
    }

    /** `initController`: a fresh, closed capture device. */
    method InitController()
      requires Valid() && !cameraActive
      modifies this`captureOpen
      ensures Valid() && !captureOpen
    {
      captureOpen := false;
    }

    /** `closeController`, called on a close request: stop rendering. */
    method CloseController()
      requires Valid()
      modifies this`cameraActive, this`captureOpen, this`timer, this`calls, this`statusText
      ensures Valid()
      ensures Cam() == Camera.StopRendering(old(Cam())).state
      ensures calls == old(calls) + Camera.StopRendering(old(Cam())).calls
      ensures statusText == STOPPED_STATUS
    {
      StopRendering();
    }

    method UpdateStartText()
      modifies this`cameraButtonText
      ensures cameraButtonText == StartText(cameraID)
    {
      cameraButtonText := START_PREFIX + Text.IntToString(cameraID);
    }

    /** `startCamera`: open and start rendering when idle; stop when running. */
    method StartCamera(opens: bool)
      requires Valid()
      modifies this`cameraActive, this`captureOpen, this`timer, this`cameraButtonText, this`calls, this`statusText
      ensures Valid()
      ensures Cam() == Camera.StartCamera(old(Cam()), opens).state
      ensures calls == old(calls) + Camera.StartCamera(old(Cam()), opens).calls
      ensures statusText == if old(cameraActive) || opens then StatusText(cameraActive) else old(statusText)
    {
      if !cameraActive {
        calls := calls + [Open(cameraID)];
        captureOpen := opens;
        if captureOpen {
          cameraActive := true;
          StartRendering();
          cameraButtonText := STOP_TEXT;
        } else {
          cameraButtonText := ERROR_TEXT;
        }
      } else {
        StopRendering();
        UpdateStartText();
      }
    }

    /** `increaseCamera`: stop an active camera, then select the next device id. */
    method IncreaseCamera()
      requires Valid()
      modifies this`cameraActive, this`captureOpen, this`timer, this`cameraID, this`cameraButtonText, this`calls, this`statusText
      ensures Valid()
      ensures Cam() == Camera.IncreaseCamera(old(Cam())).state
      ensures calls == old(calls) + Camera.IncreaseCamera(old(Cam())).calls
      ensures statusText == if old(cameraActive) then STOPPED_STATUS else old(statusText)
    {
      if cameraActive {
        StopRendering();
      }
      if cameraID < INT_MAX {
        cameraID := cameraID + 1;
      }
      UpdateStartText();
    }

    /** `decreaseCamera`: stop an active camera, then step the id down unless it is 0. */
    method DecreaseCamera()
      requires Valid()
      modifies this`cameraActive, this`captureOpen, this`timer, this`cameraID, this`cameraButtonText, this`calls, this`statusText
      ensures Valid()
      ensures Cam() == Camera.DecreaseCamera(old(Cam())).state
      ensures calls == old(calls) + Camera.DecreaseCamera(old(Cam())).calls
      ensures statusText == if old(cameraActive) then STOPPED_STATUS else old(statusText)
    {
      if cameraActive {
        StopRendering();
      }
      if cameraID > 0 {
        cameraID := cameraID - 1;
      }
      UpdateStartText();
    }

    /** The render toggles and `setRender*Active`: set one view's render flag. */
    method SetRenderActive(t: Target, active: bool)
      modifies this`renderMainActive, this`renderAlphaActive, this`renderBetaActive
      ensures renderMainActive == if t == Main then active else old(renderMainActive)
      ensures renderAlphaActive == if t == Alpha then active else old(renderAlphaActive)
      ensures renderBetaActive == if t == Beta then active else old(renderBetaActive)
    {
      match t
      case Main => renderMainActive := active;
      case Alpha => renderAlphaActive := active;
      case Beta => renderBetaActive := active;
    }

    /** `grabFrame`: an empty frame unless an open device delivers one. */
    method GrabFrame(read: ReadOutcome) returns (frame: Frame)
      ensures frame == GrabbedFrame(captureOpen, read)
    {
      frame := Empty;
      if captureOpen {
        match read
        case Read(f) => frame := f;
        case ReadThrows =>
      }
    }

    /**
     * One run of `frameRenderer`: grab a frame; for a non-empty one call the
     * user's `process` (whose outputs are `processed`) and post the views
     * whose flags and buffers allow it.
     */
    method FrameRenderer(read: ReadOutcome, processed: Buffers) returns (processCalled: bool, posts: seq<Post>)
      ensures var frame := GrabbedFrame(captureOpen, read);
              && (processCalled <==> frame.Image?)
              && IsTickOutput(posts, frame, renderMainActive, renderAlphaActive, renderBetaActive, processed)
    {
      var frame := GrabFrame(read);
      posts := [];
      processCalled := false;
      if !frame.Empty? {
        processCalled := true;
        if renderMainActive {
          posts := posts + [Post(Main, processed.main)];
        }
        if renderAlphaActive && !processed.alpha.Empty? {
          posts := posts + [Post(Alpha, processed.alpha)];
        }
        if renderBetaActive && !processed.beta.Empty? {
          posts := posts + [Post(Beta, processed.beta)];
        }
      }
      assert posts == TickPosts(frame, renderMainActive, renderAlphaActive, renderBetaActive, processed);
      TickPostsMeetSpec(frame, renderMainActive, renderAlphaActive, renderBetaActive, processed);
    }

    /** `startRendering`: schedule the timer and show the active status. */
    method StartRendering()
      modifies this`timer, this`calls, this`statusText
      ensures timer == Running && calls == old(calls) + [Schedule]
      ensures statusText == ACTIVE_STATUS
    {
      timer := Running;
      calls := calls + [Schedule];
      statusText := ACTIVE_STATUS;
    }

    /**
     * `stopRendering`: clear the flag, shut down a live timer, show the
     * stopped status, release an open device.
     */
    method StopRendering()
      modifies this`cameraActive, this`captureOpen, this`timer, this`calls, this`statusText
      ensures Cam() == Camera.StopRendering(old(Cam())).state
      ensures calls == old(calls) + Camera.StopRendering(old(Cam())).calls
      ensures statusText == STOPPED_STATUS
      ensures Consistent(old(Cam())) ==> Consistent(Cam())
    {
      cameraActive := false;
      if timer == Running {
        timer := ShutDown;
        calls := calls + [Shutdown];
      }
      statusText := STOPPED_STATUS;
      if captureOpen {
        captureOpen := false;
        calls := calls + [Release];
      }
    }
  }
}
