/**
 * The BaseModule controller (CVFXController v1.3): 32 info-text slots, the
 * camera / render state machine, the per-tick render decision, and a
 * visibility registry in which a slider's label follows its slider.
 */
module BaseModuleController {
  import opened Camera
  import opened Render
  import opened InfoText
  import opened Visibility

  /** The controller's declared fields in declaration order, as the reflection scan sees them. */
  const Fields: seq<FieldDecl> := [
    NodeField(ImageViewMain, false), NodeField(ImageViewAlpha, false), NodeField(ImageViewBeta, false),
    NodeField(CameraButton, false),
    NodeField(Button('A'), true), NodeField(Button('B'), true), NodeField(Button('C'), true),
    NodeField(Button('D'), true), NodeField(Button('E'), true), NodeField(Button('F'), true),
    NodeField(Toggle('A'), true), NodeField(Toggle('B'), true), NodeField(Toggle('C'), true), NodeField(Toggle('D'), true),
    NodeField(Toggle('E'), true), NodeField(Toggle('F'), true), NodeField(Toggle('G'), true), NodeField(Toggle('H'), true),
    NodeField(Slider('A'), true), NodeField(Slider('B'), true), NodeField(Slider('C'), true), NodeField(Slider('D'), true),
    NodeField(Slider('E'), true), NodeField(Slider('F'), true), NodeField(Slider('G'), true),
    NodeField(SliderLabel('A'), false), NodeField(SliderLabel('B'), false), NodeField(SliderLabel('C'), false),
    NodeField(SliderLabel('D'), false), NodeField(SliderLabel('E'), false), NodeField(SliderLabel('F'), false),
    NodeField(SliderLabel('G'), false),
    OtherField("nodesToHide"), NodeField(InfoLabelNode, false), OtherField("infoText"),
    OtherField("videoCapture"), OtherField("cameraActive"), OtherField("cameraID"),
    OtherField("renderMainActive"), OtherField("renderAlphaActive"), OtherField("renderBetaActive"),
    OtherField("timer"), OtherField("frameRenderer"), OtherField("loggingActive")
  ]

  /** The user palette marked `@Hidable`: buttons A-F, toggles A-H, sliders A-G. */
  predicate InPalette(n: NodeId) {
    || (n.Button? && 'A' <= n.letter <= 'F')
    || (n.Toggle? && 'A' <= n.letter <= 'H')
    || (n.Slider? && 'A' <= n.letter <= 'G')
  }

  /** Every slider of the table has its label field, so the label lookup never fails. */
  lemma SliderLabelsDeclared()
    ensures forall n :: n in NodeSet(Fields) && n.Slider? ==> LabelOf(n) in NodeSet(Fields)
  {
    forall n | n in NodeSet(Fields) && n.Slider? ensures LabelOf(n) in NodeSet(Fields) {
      var i :| 0 <= i < |Fields| && Fields[i].NodeField? && Fields[i].node == n;
      assert 18 <= i <= 24;
      assert Fields[i + 7].node == LabelOf(n);
    }
  }

  /** Every palette node is a hidable field of the table. */
  lemma PaletteIsHidable(n: NodeId)
    requires InPalette(n)
    ensures n in HidableNodes(Fields)
  {
    var i := if n.Button? then 4 + (n.letter as int - 'A' as int)
             else if n.Toggle? then 10 + (n.letter as int - 'A' as int)
             else 18 + (n.letter as int - 'A' as int);
    assert IsHidableNode(Fields[i]) && Fields[i].node == n;
    HidableNodesMembers(Fields, n);
  }

  /** Every hidable field of the table is a palette node. */
  lemma HidableIsPalette(n: NodeId)
    requires n in HidableNodes(Fields)
    ensures InPalette(n)
  {
    HidableNodesMembers(Fields, n);
    var i :| 0 <= i < |Fields| && IsHidableNode(Fields[i]) && Fields[i].node == n;
    if i < 22 { EarlyHidableFields(); } else { LateHidableFields(); }
  }

  /** The hidable fields among the first 22 are nodes of the palette (checked field by field). */
  lemma EarlyHidableFields()
    ensures forall i :: 0 <= i < 22 ==> IsHidableNode(Fields[i]) ==> InPalette(Fields[i].node)
  {
  }

  /** The hidable fields from index 22 on are nodes of the palette (checked field by field). */
  lemma LateHidableFields()
    ensures forall i :: 22 <= i < |Fields| ==> IsHidableNode(Fields[i]) ==> InPalette(Fields[i].node)
  {
  }

  /** The registry the scan builds holds exactly the palette. */
  lemma RegistryIsPalette()
    ensures forall n :: n in HidableNodes(Fields) <==> InPalette(n)
  {
    forall n ensures n in HidableNodes(Fields) <==> InPalette(n) {
      if InPalette(n) { PaletteIsHidable(n); }
      if n in HidableNodes(Fields) { HidableIsPalette(n); }
    }
  }

  /**
   * `hideAll` over the scanned registry changes exactly the palette and the
   * seven slider labels; the camera button, the image views and the info
   * label are not touched.
   */
  lemma HideAllTouchesPaletteAndLabels()
    ensures forall m :: m in Affected(HidableNodes(Fields), true) <==>
      InPalette(m) || (m.SliderLabel? && 'A' <= m.letter <= 'G')
  {
    var reg := HidableNodes(Fields);
    RegistryIsPalette();
    forall m ensures m in Affected(reg, true) <==> InPalette(m) || (m.SliderLabel? && 'A' <= m.letter <= 'G') {
      AffectedMembers(reg, true, m);
      if m in Affected(reg, true) {
        var i :| 0 <= i < |reg| && m in Touched(reg[i], true);
        assert InPalette(reg[i]);
      }
      if m.SliderLabel? && 'A' <= m.letter <= 'G' {
        HidableNodesMembers(Fields, Slider(m.letter));
        var i :| 0 <= i < |reg| && reg[i] == Slider(m.letter);
        assert m in Touched(reg[i], true);
      } else if InPalette(m) {
        var i :| 0 <= i < |reg| && reg[i] == m;
        assert m in Touched(reg[i], true);
      }
    }
  }

  class Controller {
    var infoText: seq<string>
    /** The info label's text (the `Platform.runLater` assignment is taken as immediate). */
    var infoLabelText: string
    var cameraActive: bool
    var cameraID: int
    /** Whether the capture device reports itself open. */
    var captureOpen: bool
    var timer: Timer
    var cameraButtonText: string
    /** The calls made on the capture device and the timer, oldest first. */
    var calls: seq<DeviceCall>
    var renderMainActive: bool
    var renderAlphaActive: bool
    var renderBetaActive: bool
    var nodesToHide: seq<NodeId>
    var visible: map<NodeId, bool>

    /** The camera state machine's view of the fields. */
    ghost function Cam(): CameraState
      reads this
    {
      CameraState(cameraActive, cameraID, captureOpen, timer, cameraButtonText)
    }

    ghost predicate Valid()
      reads this
    {
      && Consistent(Cam())
      && |infoText| == BASE_SLOTS
      && visible.Keys == NodeSet(Fields)
      && (forall n :: n in nodesToHide ==> n in visible)
    }

    /** The constructor allocates the 32 empty info-text slots; Main renders by default. */
    constructor ()
      ensures Valid()
      ensures infoText == Blanks(BASE_SLOTS) && infoLabelText == ""
      ensures renderMainActive && !renderAlphaActive && !renderBetaActive
      ensures Cam() == CameraState(false, 0, false, NoTimer, "") && calls == []
      ensures nodesToHide == [] && forall n :: n in visible ==> visible[n]
    {
      infoLabelText := "";
      cameraActive, cameraID, captureOpen, timer, cameraButtonText := false, 0, false, NoTimer, "";
      calls := [];
      renderMainActive, renderAlphaActive, renderBetaActive := true, false, false;
      nodesToHide := [];
      visible := map n | n in NodeSet(Fields) :: true;
      var slots: seq<string> := [];
      var i := 0;
      while i < BASE_SLOTS
        invariant 0 <= i <= BASE_SLOTS && slots == Blanks(i)
      {
        slots := slots + [""];
        i := i + 1;
      }
      infoText := slots;
    }

    /**
     * `initController`: a fresh, closed capture device, then the scan that
     * appends every hidable node field to the registry in declaration order.
     */
    method InitController()
      requires Valid() && !cameraActive
      modifies this`captureOpen, this`nodesToHide
      ensures Valid() && !captureOpen
      ensures nodesToHide == old(nodesToHide) + HidableNodes(Fields)
    {
      captureOpen := false;
      RegisterHidable(Fields);
      HidableNodesAreNodes(Fields);
    }

    /** The scan of `initController`: append every hidable node field, in declaration order. */
    method RegisterHidable(fields: seq<FieldDecl>)
      modifies this`nodesToHide
      ensures nodesToHide == old(nodesToHide) + HidableNodes(fields)
    {
      var i := 0;
      while i < |fields|
        invariant 0 <= i <= |fields|
        invariant nodesToHide == old(nodesToHide) + HidableNodes(fields[..i])
      {
        var f := fields[i];
        assert fields[..i + 1][..i] == fields[..i];
        if f.NodeField? && f.hidable {
          nodesToHide := nodesToHide + [f.node];
        }
        i := i + 1;
      }
      assert fields[..i] == fields;
    }

    /** `closeController`, called on a close request: stop rendering. */
    method CloseController()
      requires Valid()
      modifies this`cameraActive, this`captureOpen, this`timer, this`calls, this`infoLabelText
      ensures Valid()
      ensures Cam() == Camera.StopRendering(old(Cam())).state
      ensures calls == old(calls) + Camera.StopRendering(old(Cam())).calls
      ensures infoLabelText == InfoLabel(false, infoText)
    {
      StopRendering();
    }

    /** `setCameraID`: store the id, never below zero, and refresh the button. */
    method SetCameraID(id: int)
      requires Valid() && INT_MIN <= id <= INT_MAX
      modifies this`cameraID, this`cameraButtonText
      ensures Valid()
      ensures Cam() == SetCameraId(old(Cam()), id).state
    {
      cameraID := if id < 0 then 0 else id;
      UpdateStartButtonText();
    }

    /** `setInfoText`: replace one slot when the position exists, then refresh the label. */
    method SetInfoText(position: int, text: string)
      requires Valid() && 0 <= position
      modifies this`infoText, this`infoLabelText
      ensures Valid()
      ensures infoText == SetSlot(old(infoText), position, text)
      ensures infoLabelText == InfoLabel(cameraActive, infoText)
    {
      if position < BASE_SLOTS {
        infoText := infoText[position := text];
      }
      UpdateInfoLabel();
    }

    /** `getInfoText`: the slot, or "ERROR" past the last slot. */
    method GetInfoText(position: int) returns (text: string)
      requires Valid() && 0 <= position
      ensures text == GetSlot(infoText, position)
    {
      if position < BASE_SLOTS {
        text := infoText[position];
      } else {
        text := NO_SLOT_TEXT;
      }
    }

    method UpdateStartButtonText()
      modifies this`cameraButtonText
      ensures cameraButtonText == StartText(cameraID)
    {
      cameraButtonText := START_PREFIX + Text.IntToString(cameraID);
    }

    /** The text `updateInfoLabel` builds: the status prefix, then the slots appended in order. */
    method ComposeInfoLabel() returns (text: string)
      ensures text == InfoLabel(cameraActive, infoText)
    {
      var temp := "";
      var i := 0;
      while i < |infoText|
        invariant 0 <= i <= |infoText|
        invariant temp == Concat(infoText[..i])
      {
        assert infoText[..i + 1][..i] == infoText[..i];
        temp := temp + infoText[i];
        i := i + 1;
      }
      assert infoText[..i] == infoText;
      text := (if cameraActive then ACTIVE_PREFIX else STOPPED_PREFIX) + temp;
    }

    /** `updateInfoLabel`. */
    method UpdateInfoLabel()
      modifies this`infoLabelText
      ensures infoLabelText == InfoLabel(cameraActive, infoText)
    {
      infoLabelText := ComposeInfoLabel();
    }

    /** `setVisibleDetected`: set a node's visibility; a slider's label follows the slider. */
    method SetVisibleDetected(n: NodeId, v: bool)
      requires Valid() && n in visible
      modifies this`visible
      ensures Valid()
      ensures visible == SetVisibility(old(visible), Touched(n, true), v)
    {
      if n.Slider? {
        visible := visible[n := v];
        SliderLabelsDeclared();
        visible := visible[LabelOf(n) := v];
      } else {
        visible := visible[n := v];
      }
    }

    /** `hide`: make every listed node invisible, with the labels of listed sliders. */
    method Hide(nodes: seq<NodeId>)
      requires Valid() && forall n :: n in nodes ==> n in visible
      modifies this`visible
      ensures Valid()
      ensures visible == SetVisibility(old(visible), Affected(nodes, true), false)
    {
      var i := 0;
      while i < |nodes|
        invariant 0 <= i <= |nodes| && Valid()
        invariant visible == SetVisibility(old(visible), Affected(nodes[..i], true), false)
      {
        assert nodes[..i + 1][..i] == nodes[..i];
        SetVisibleDetected(nodes[i], false);
        SetVisibilityUnion(old(visible), Affected(nodes[..i], true), Touched(nodes[i], true), false);
        i := i + 1;
      }
      assert nodes[..i] == nodes;
    }

    /** `show`: make every listed node visible, with the labels of listed sliders. */
    method Show(nodes: seq<NodeId>)
      requires Valid() && forall n :: n in nodes ==> n in visible
      modifies this`visible
      ensures Valid()
      ensures visible == SetVisibility(old(visible), Affected(nodes, true), true)
    {
      var i := 0;
      while i < |nodes|
        invariant 0 <= i <= |nodes| && Valid()
        invariant visible == SetVisibility(old(visible), Affected(nodes[..i], true), true)
      {
        assert nodes[..i + 1][..i] == nodes[..i];
        SetVisibleDetected(nodes[i], true);
        SetVisibilityUnion(old(visible), Affected(nodes[..i], true), Touched(nodes[i], true), true);
        i := i + 1;
      }
      assert nodes[..i] == nodes;
    }

    /** `hideAll`: hide every registry entry, one `hide` call each. */
    method HideAll()
      requires Valid()
      modifies this`visible
      ensures Valid()
      ensures visible == SetVisibility(old(visible), Affected(nodesToHide, true), false)
    {
      var i := 0;
      while i < |nodesToHide|
        invariant 0 <= i <= |nodesToHide| && Valid()
        invariant visible == SetVisibility(old(visible), Affected(nodesToHide[..i], true), false)
      {
        assert nodesToHide[..i + 1][..i] == nodesToHide[..i];
        Hide([nodesToHide[i]]);
        assert Affected([nodesToHide[i]], true) == Touched(nodesToHide[i], true);
        SetVisibilityUnion(old(visible), Affected(nodesToHide[..i], true), Touched(nodesToHide[i], true), false);
        i := i + 1;
      }
      assert nodesToHide[..i] == nodesToHide;
    }

    /** `startCamera`: open and start rendering when idle; stop when running. */
    method StartCamera(opens: bool)
      requires Valid()
      modifies this`cameraActive, this`captureOpen, this`timer, this`cameraButtonText, this`calls, this`infoLabelText
      ensures Valid()
      ensures Cam() == Camera.StartCamera(old(Cam()), opens).state
      ensures calls == old(calls) + Camera.StartCamera(old(Cam()), opens).calls
      ensures infoLabelText == if old(cameraActive) || opens then InfoLabel(cameraActive, infoText) else old(infoLabelText)
    {
      if !cameraActive {
        calls := calls + [Open(cameraID)];
        captureOpen := opens;
        if captureOpen {
          cameraActive := true;
          StartRendering();
          cameraButtonText := STOP_TEXT;
        } else {
          cameraButtonText := ERROR_TEXT;
        }
      } else {
        StopRendering();
        UpdateStartButtonText();
      }
    }

    /** `increaseCamera`: stop an active camera, then select the next device id. */
    method IncreaseCamera()
      requires Valid()
      modifies this`cameraActive, this`captureOpen, this`timer, this`cameraID, this`cameraButtonText, this`calls, this`infoLabelText
      ensures Valid()
      ensures Cam() == Camera.IncreaseCamera(old(Cam())).state
      ensures calls == old(calls) + Camera.IncreaseCamera(old(Cam())).calls
      ensures infoLabelText == if old(cameraActive) then InfoLabel(false, infoText) else old(infoLabelText)
    {
      if cameraActive {
        StopRendering();
      }
      if cameraID < INT_MAX {
        cameraID := cameraID + 1;
      }
      UpdateStartButtonText();
    }

    /** `decreaseCamera`: stop an active camera, then step the id down unless it is 0. */
    method DecreaseCamera()
      requires Valid()
      modifies this`cameraActive, this`captureOpen, this`timer, this`cameraID, this`cameraButtonText, this`calls, this`infoLabelText
      ensures Valid()
      ensures Cam() == Camera.DecreaseCamera(old(Cam())).state
      ensures calls == old(calls) + Camera.DecreaseCamera(old(Cam())).calls
      ensures infoLabelText == if old(cameraActive) then InfoLabel(false, infoText) else old(infoLabelText)
    {
      if cameraActive {
        StopRendering();
      }
      if cameraID > 0 {
        cameraID := cameraID - 1;
      }
      UpdateStartButtonText();
    }

    /** The render toggles and `setRender*Active`: set one view's render flag. */
    method SetRenderActive(t: Target, active: bool)
      modifies this`renderMainActive, this`renderAlphaActive, this`renderBetaActive
      ensures renderMainActive == if t == Main then active else old(renderMainActive)
      ensures renderAlphaActive == if t == Alpha then active else old(renderAlphaActive)
      ensures renderBetaActive == if t == Beta then active else old(renderBetaActive)
    {
      match t
      case Main => renderMainActive := active;
      case Alpha => renderAlphaActive := active;
      case Beta => renderBetaActive := active;
    }

    /** `grabFrame`: an empty frame unless an open device delivers one. */
    method GrabFrame(read: ReadOutcome) returns (frame: Frame)
      ensures frame == GrabbedFrame(captureOpen, read)
    {
      frame := Empty;
      if captureOpen {
        match read
        case Read(f) => frame := f;
        case ReadThrows =>
      }
    }

    /**
     * One run of `frameRenderer`: grab a frame; for a non-empty one call the
     * user's `process` (whose outputs are `processed`) and post the views
     * whose flags and buffers allow it.
     */
    method FrameRenderer(read: ReadOutcome, processed: Buffers) returns (processCalled: bool, posts: seq<Post>)
      ensures var frame := GrabbedFrame(captureOpen, read);
              && (processCalled <==> frame.Image?)
              && IsTickOutput(posts, frame, renderMainActive, renderAlphaActive, renderBetaActive, processed)
    {
      var frame := GrabFrame(read);
      posts := [];
      processCalled := false;
      if !frame.Empty? {
        processCalled := true;
        if renderMainActive {
          posts := posts + [Post(Main, processed.main)];
        }
        if renderAlphaActive && !processed.alpha.Empty? {
          posts := posts + [Post(Alpha, processed.alpha)];
        }
        if renderBetaActive && !processed.beta.Empty? {
          posts := posts + [Post(Beta, processed.beta)];
        }
      }
      assert posts == TickPosts(frame, renderMainActive, renderAlphaActive, renderBetaActive, processed);
      TickPostsMeetSpec(frame, renderMainActive, renderAlphaActive, renderBetaActive, processed);
    }

    /** `startRendering`: schedule the timer and refresh the label. */
    method StartRendering()
      modifies this`timer, this`calls, this`infoLabelText
      ensures timer == Running && calls == old(calls) + [Schedule]
      ensures infoLabelText == InfoLabel(cameraActive, infoText)
    {
      timer := Running;
      calls := calls + [Schedule];
      UpdateInfoLabel();
    }

    /**
     * `stopRendering`: clear the flag, shut down a live timer, refresh the
     * label, release an open device.
     */
    method StopRendering()
      modifies this`cameraActive, this`captureOpen, this`timer, this`calls, this`infoLabelText
      ensures Cam() == Camera.StopRendering(old(Cam())).state
      ensures calls == old(calls) + Camera.StopRendering(old(Cam())).calls
      ensures infoLabelText == InfoLabel(false, infoText)
      ensures Consistent(old(Cam())) ==> Consistent(Cam())
    {
      cameraActive := false;
      if timer == Running {
        timer := ShutDown;
        calls := calls + [Shutdown];
      }
      UpdateInfoLabel();
      if captureOpen {
        captureOpen := false;
        calls := calls + [Release];
      }
    }
  }
}
