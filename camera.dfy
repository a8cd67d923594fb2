/**
 * The camera / render state machine shared by the three controller variants:
 * the flags `cameraActive` and `cameraID`, the capture device's open flag, the
 * render timer, and the camera button's text. Each operation is a function
 * from the old state to the new state together with the calls it makes on the
 * capture device and the timer, in order.
 */
module Camera {
  import Text

  /** Bounds of a Java `int`. */
  const INT_MIN: int := -0x8000_0000
  const INT_MAX: int := 0x7fff_ffff

  const STOP_TEXT: string := "Stop Camera"
  const ERROR_TEXT: string := "ERROR"
  const START_PREFIX: string := "Start Camera "

  /** The camera button's text while no camera is running (`updateStartButtonText`). */
  function StartText(id: int): string {
    START_PREFIX + Text.IntToString(id)
  }

  /** The render timer: never created (null), scheduled and running, or shut down. */
  datatype Timer = NoTimer | Running | ShutDown

  /** A call the controller makes on the capture device or on the timer. */
  datatype DeviceCall = Open(index: int) | Release | Schedule | Shutdown

  datatype CameraState = CameraState(active: bool, id: int, deviceOpen: bool, timer: Timer, buttonText: string)

  /** The state after an operation and the calls it made, in the order it made them. */
  datatype Step = Step(state: CameraState, calls: seq<DeviceCall>)

  /**
   * What the handlers keep true between events: the id is a non-negative Java
   * int, and the camera is active exactly when the device is open and exactly
   * when the timer is running.
   */
  predicate Consistent(s: CameraState) {
    && 0 <= s.id <= INT_MAX
    && (s.active <==> s.deviceOpen)
    && (s.active <==> s.timer == Running)
  }

  /** `stopRendering`: clear the flag, shut down a live timer, release an open device. */
  function StopRendering(s: CameraState): (r: Step)
    ensures !r.state.active && !r.state.deviceOpen && r.state.timer != Running
    ensures r.state.id == s.id && r.state.buttonText == s.buttonText
    ensures s.timer != Running ==> r.state.timer == s.timer
    ensures (Shutdown in r.calls <==> s.timer == Running) && (Release in r.calls <==> s.deviceOpen)
    ensures forall i :: 0 <= i < |r.calls| ==> r.calls[i] in {Shutdown, Release}
    ensures |r.calls| <= 2 && forall i, j :: 0 <= i < j < |r.calls| ==> r.calls[i] == Shutdown && r.calls[j] == Release
    ensures Consistent(s) ==> Consistent(r.state)
  {
    Step(s.(active := false, deviceOpen := false, timer := if s.timer == Running then ShutDown else s.timer),
         (if s.timer == Running then [Shutdown] else []) + (if s.deviceOpen then [Release] else []))
  }

  /**
   * `startCamera`: when inactive, open device `id` (`opens` says whether the
   * device reports itself open afterwards) and on success start the timer;
   * when active, stop.
   */
  function StartCamera(s: CameraState, opens: bool): (r: Step)
    ensures r.state.id == s.id
    ensures !s.active && opens ==>
      r.state.active && r.state.deviceOpen && r.state.timer == Running && r.state.buttonText == STOP_TEXT
      && r.calls == [Open(s.id), Schedule]
    ensures !s.active && !opens ==>
      !r.state.active && !r.state.deviceOpen && r.state.timer == s.timer && r.state.buttonText == ERROR_TEXT
      && r.calls == [Open(s.id)]
    ensures s.active ==> r.state == StopRendering(s).state.(buttonText := StartText(s.id)) && r.calls == StopRendering(s).calls
    ensures Consistent(s) ==> Consistent(r.state)
  {
    if !s.active then
      if opens then Step(s.(active := true, deviceOpen := true, timer := Running, buttonText := STOP_TEXT), [Open(s.id), Schedule])
      else Step(s.(deviceOpen := false, buttonText := ERROR_TEXT), [Open(s.id)])
    else
      var stopped := StopRendering(s);
      Step(stopped.state.(buttonText := StartText(s.id)), stopped.calls)
  }

  /** The first half of `increaseCamera` and `decreaseCamera`: stop an active camera. */
  function StopIfActive(s: CameraState): (r: Step)
    ensures !r.state.active && r.state.id == s.id && r.state.buttonText == s.buttonText
    ensures !s.active ==> r.state == s && r.calls == []
    ensures Consistent(s) ==> Consistent(r.state) && !r.state.deviceOpen && r.state.timer != Running
    ensures Consistent(s) && s.active ==> r.calls == [Shutdown, Release]
  {
    if s.active then StopRendering(s) else Step(s, [])
  }

  /**
   * `increaseCamera` as the source has it: `cameraID++` on a Java int, which
   * wraps from Integer.MAX_VALUE to Integer.MIN_VALUE.
   */
  function IncreaseCameraAsWritten(s: CameraState): (r: Step)
    requires INT_MIN <= s.id <= INT_MAX
    ensures INT_MIN <= r.state.id <= INT_MAX
    ensures s.id < INT_MAX ==> r.state.id == s.id + 1
    ensures s.id == INT_MAX ==> r.state.id == INT_MIN
    ensures !r.state.active && r.state.buttonText == StartText(r.state.id)
    ensures r.calls == StopIfActive(s).calls
    ensures Consistent(s) ==> !r.state.deviceOpen && r.state.timer != Running
  {
    var stopped := StopIfActive(s);
    var id := if s.id == INT_MAX then INT_MIN else s.id + 1;
    Step(stopped.state.(id := id, buttonText := StartText(id)), stopped.calls)
  }

  /**
   * `increaseCamera` as intended: stop an active camera, then move to the next
   * device id, which stays a non-negative Java int.
   */
  function IncreaseCamera(s: CameraState): (r: Step)
    ensures !r.state.active && r.state.buttonText == StartText(r.state.id)
    ensures r.calls == StopIfActive(s).calls
    ensures s.id < INT_MAX ==> r.state.id == s.id + 1
    ensures s.id >= INT_MAX ==> r.state.id == s.id
    ensures Consistent(s) ==> Consistent(r.state) && !r.state.deviceOpen
  {
    var stopped := StopIfActive(s);
    var id := if s.id < INT_MAX then s.id + 1 else s.id;
    Step(stopped.state.(id := id, buttonText := StartText(id)), stopped.calls)
  }

  /** `decreaseCamera`: stop an active camera, then step the id down unless it is already 0. */
  function DecreaseCamera(s: CameraState): (r: Step)
    ensures !r.state.active && r.state.buttonText == StartText(r.state.id)
    ensures r.calls == StopIfActive(s).calls
    ensures s.id > 0 ==> r.state.id == s.id - 1
    ensures s.id <= 0 ==> r.state.id == s.id
    ensures Consistent(s) ==> Consistent(r.state) && !r.state.deviceOpen
  {
    var stopped := StopIfActive(s);
    var id := if s.id > 0 then s.id - 1 else s.id;
    Step(stopped.state.(id := id, buttonText := StartText(id)), stopped.calls)
  }

  /** `setCameraID`: store the id clamped below at 0 and refresh the button; nothing is stopped. */
  function SetCameraId(s: CameraState, id: int): (r: Step)
    requires INT_MIN <= id <= INT_MAX
    ensures r.state.id >= 0 && (id >= 0 ==> r.state.id == id) && (id < 0 ==> r.state.id == 0)
    ensures r.state.buttonText == StartText(r.state.id) && r.calls == []
    ensures r.state.active == s.active && r.state.deviceOpen == s.deviceOpen && r.state.timer == s.timer
    ensures Consistent(s) ==> Consistent(r.state)
  {
    var stored := if id < 0 then 0 else id;
    Step(s.(id := stored, buttonText := StartText(stored)), [])
  }

  /** A second `stopRendering` changes nothing and makes no device or timer call. */
  lemma StopRenderingIdempotent(s: CameraState)
    ensures var once := StopRendering(s).state; StopRendering(once) == Step(once, [])
  {
  }

  /**
   * Pressing the camera button twice from a consistent idle state opens the
   * device, schedules the timer, then shuts the timer down and releases the
   * device, in that order, ending idle with the same id.
   */
  lemma StartThenToggleStops(s: CameraState, second: bool)
    requires Consistent(s) && !s.active
    ensures var on := StartCamera(s, true);
            var off := StartCamera(on.state, second);
            && on.calls + off.calls == [Open(s.id), Schedule, Shutdown, Release]
            && off.state == CameraState(false, s.id, false, ShutDown, StartText(s.id))
  {
  }

  /** Stepping the id up and back down returns to the same id, and the device ends closed. */
  lemma IncreaseThenDecrease(s: CameraState)
    requires Consistent(s) && s.id < INT_MAX
    ensures var down := DecreaseCamera(IncreaseCamera(s).state).state;
            down.id == s.id && !down.active && !down.deviceOpen && down.buttonText == StartText(s.id)
  {
  }

  /** The start text names the id: two ids with the same start text are equal. */
  lemma StartTextNamesId(a: nat, b: nat)
    requires StartText(a) == StartText(b)
    ensures a == b
  {
    var n := |START_PREFIX|;
    assert Text.NatToString(a) == StartText(a)[n..];
    assert Text.NatToString(b) == StartText(b)[n..];
    Text.NatToStringInjective(a, b);
  }

  /**
   * The as-written `increaseCamera` breaks the non-negative id on a consistent
   * state: at Integer.MAX_VALUE the id wraps to a negative number.
   */
  lemma IncreaseCameraAsWrittenWraps()
    ensures var s := CameraState(false, INT_MAX, false, NoTimer, StartText(INT_MAX));
            && Consistent(s)
            && IncreaseCameraAsWritten(s).state.id == INT_MIN
            && !Consistent(IncreaseCameraAsWritten(s).state)
  {
  }
}
