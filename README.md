# CVFXBase in Dafny

CVFXBase is a small JavaFX + OpenCV framework. An application subclasses
`CVFXApp` and names a controller class. That controller subclasses
`CVFXController` and supplies `process(frame, alpha, beta)`. The framework
then runs the camera, renders three image views on a 33 ms timer, shows an
info label, and lets the application hide and show a fixed palette of buttons,
toggles and sliders.

This project models the sequential state logic of the framework, with threads,
JavaFX and OpenCV abstracted away. It covers three controller versions and the
BaseModule start-up code:

- `Camera` is the camera / render state machine the three controllers
  share. Its state is `cameraActive`, `cameraID`, the device's open flag, the
  render timer (never made, running or shut down) and the camera button's text.
  Each operation is a function returning the new state together with the calls
  it makes on the device and the timer, in order (`Open(id)`, `Schedule`,
  `Shutdown`, `Release`). `Consistent` is the invariant the handlers keep:
  the id is a non-negative Java int, and active holds exactly when the device
  is open and exactly when the timer runs.
- `Render` is the per-tick decision of the `frameRenderer` task.
  - `grabFrame` gives an empty frame unless an open device delivers one.
  - The tick posts to Main when its flag is set. It posts to Alpha and Beta
    when their flag is set and their processed buffer is non-empty.
  - An empty frame gives no posts and no call to `process`.
  - `IsTickOutput` is the declarative specification of the posts. They are
    exactly the targets, each once, in the order Main, Alpha, Beta.
  - `ApplyPosts` is the UI thread applying the posts in order.
- `InfoText` covers the info-text slots and the label text: a status prefix
  chosen by `cameraActive`, then every slot in index order.
- `Visibility` replaces the reflection scan with a table of the controller's
  declared fields. It has:
  - the registry the scan builds (the hidable node fields, in order);
  - the slider-to-label pairing by name;
  - the visibility map that `hide`, `show` and `hideAll` change.
- `BaseModuleController`, `SrcBaseController` and `SrcAppController` are the
  three controller classes. Each method is proved against the functions above;
  see the source cells in the table for which file each one models.
- `BaseModuleApp` covers `start`.
  - It checks the metadata in source order: native library, FXML location,
    public constructor, `@ControllerClass`, instantiation.
  - The window title is the `@AppTitle` value or `""`, followed by
    `" [ CVFXBase v1.2 ]"`.
  - It records the hook order `initController`, stage shown, `initAfterShow`,
    `onAppStarted`.
  - It also covers `setStageTitle` and the close handler.

Abstract inputs stand in for the outside world:

- `open(cameraID)` becomes a boolean `opens`: whether the device reports
  itself open afterwards.
- A device read is a `ReadOutcome`: a frame or an exception.
- The user's `process` callback is the `Buffers` it leaves behind.
- Reflection metadata is an `AppMeta` value.
- `System.exit(-1)` is a `Failure` result.

## Model

| member | source | states |
|---|---|---|
| Text.IntToString | BaseModule/src/com/plasmoxy/cvfxbase/CVFXController.java:358-360 | the decimal text of the id is non-empty and starts with '-' exactly for a negative id |
| Text.NatToString | BaseModule/src/com/plasmoxy/cvfxbase/CVFXController.java:358-360 | the decimal text of a non-negative id is all digits with no leading zero |
| Text.ParseNatToString | BaseModule/src/com/plasmoxy/cvfxbase/CVFXController.java:358-360 | the decimal text of a non-negative id parses back to the same id (round trip) |
| Text.NatToStringInjective | BaseModule/src/com/plasmoxy/cvfxbase/CVFXController.java:358-360 | two different ids never get the same decimal text |
| Camera.StopRendering | BaseModule/src/com/plasmoxy/cvfxbase/CVFXController.java:641-658 | the camera ends inactive with the device closed and no running timer; a timer is shut down iff it was running; the device is released iff it was open; each call happens at most once, and the shutdown comes before the release; id and button keep their values; the invariant is preserved |
| Camera.StopRenderingIdempotent | BaseModule/src/com/plasmoxy/cvfxbase/CVFXController.java:641-658 | a second stopRendering leaves the state unchanged and makes no device or timer call |
| Camera.StartCamera | BaseModule/src/com/plasmoxy/cvfxbase/CVFXController.java:486-503 | idle with a successful open: active, device open, timer running, "Stop Camera", calls [Open(id), Schedule]; idle with a failed open: still inactive, timer untouched, "ERROR", calls [Open(id)]; active: stopRendering plus "Start Camera <id>"; the invariant is preserved |
| Camera.StartThenToggleStops | BaseModule/src/com/plasmoxy/cvfxbase/CVFXController.java:486-503 | two presses from idle with a successful open make the calls open, schedule, shutdown, release, and end idle with the same id and the start text |
| Camera.StopIfActive | BaseModule/src/com/plasmoxy/cvfxbase/CVFXController.java:510 | afterwards the camera is inactive with id and button unchanged; an inactive camera is left as it is with no calls; from a consistent active state the timer is shut down and then the device released, and the invariant holds |
| Camera.IncreaseCameraAsWritten | BaseModule/src/com/plasmoxy/cvfxbase/CVFXController.java:509-513 | the id as written: below Integer.MAX_VALUE it goes up by one, at Integer.MAX_VALUE it becomes Integer.MIN_VALUE, and it stays a Java int; the camera ends inactive with the calls of stopping an active camera; the button shows the new id |
| Camera.IncreaseCameraAsWrittenWraps | BaseModule/src/com/plasmoxy/cvfxbase/CVFXController.java:509-513 | from a consistent idle state at Integer.MAX_VALUE the as-written increment makes the id Integer.MIN_VALUE and breaks the invariant |
| Camera.IncreaseCamera | BaseModule/src/com/plasmoxy/cvfxbase/CVFXController.java:509-513 | an active camera is stopped first (the same calls as stopRendering); the id goes up by exactly one below Integer.MAX_VALUE; the result is inactive with the device closed and the button showing the new id |
| Camera.DecreaseCamera | BaseModule/src/com/plasmoxy/cvfxbase/CVFXController.java:519-523 | an active camera is stopped first; the id goes down by one only when it is positive, so it never goes below 0; the result is inactive with the device closed and the button showing the new id |
| Camera.IncreaseThenDecrease | BaseModule/src/com/plasmoxy/cvfxbase/CVFXController.java:509-523 | increasing and then decreasing returns to the same id, with the camera idle and the device closed |
| Camera.SetCameraId | BaseModule/src/com/plasmoxy/cvfxbase/CVFXController.java:232-235 | stores max(id, 0); the button shows the stored id; activity, device and timer are unchanged and no calls are made |
| Camera.StartTextNamesId | BaseModule/src/com/plasmoxy/cvfxbase/CVFXController.java:358-360 | the start text identifies the id: two non-negative ids with the same button text are equal |
| Render.GrabbedFrame | BaseModule/src/com/plasmoxy/cvfxbase/CVFXController.java:615-625 | the frame is an image iff the device is open and the read delivered an image, and then it is that image; otherwise it is empty, never missing |
| Render.RenderTargets | BaseModule/src/com/plasmoxy/cvfxbase/CVFXController.java:129-149 | an empty frame has no targets; Main is a target iff the frame is an image and its flag is set; Alpha or Beta is a target iff the frame is an image, its flag is set and its processed buffer is non-empty |
| Render.ApplyPosts | BaseModule/src/com/plasmoxy/cvfxbase/CVFXController.java:129-149 | after the posts are applied, the views are the old views plus every posted view |
| Render.LastPostWins | BaseModule/src/com/plasmoxy/cvfxbase/CVFXController.java:129-149 | the last post to a view decides what that view shows |
| Render.ApplyDistinctPosts | BaseModule/src/com/plasmoxy/cvfxbase/CVFXController.java:129-149 | posts to distinct views give each posted view its image and leave every other view unchanged |
| Render.ApplyTickOutput | BaseModule/src/com/plasmoxy/cvfxbase/CVFXController.java:129-149 | after a tick's posts, each render target shows its processed buffer and every other view keeps its image |
| Render.TickPostsMeetSpec | BaseModule/src/com/plasmoxy/cvfxbase/CVFXController.java:129-149 | the posts made one after the other (Main, then Alpha, then Beta, each behind its guard) meet the tick specification IsTickOutput |
| InfoText.Blanks | BaseModule/src/com/plasmoxy/cvfxbase/CVFXController.java:161-164 | the allocation loop gives exactly n slots, each "" |
| InfoText.SetSlot | BaseModule/src/com/plasmoxy/cvfxbase/CVFXController.java:248-255 | the length is unchanged; slot p becomes the text when p is below the length; every other slot is unchanged |
| InfoText.GetSlot | BaseModule/src/com/plasmoxy/cvfxbase/CVFXController.java:262-269 | slot p when it exists, "ERROR" past the last slot |
| InfoText.GetAfterSet | BaseModule/src/com/plasmoxy/cvfxbase/CVFXController.java:248-269 | reading back a set slot gives the text set; every other position, and any position past the end, reads as before |
| InfoText.ConcatAppend | BaseModule/src/com/plasmoxy/cvfxbase/CVFXController.java:365-369 | joining two runs of slots is joining each run and concatenating the results |
| InfoText.ConcatBlanks | BaseModule/src/com/plasmoxy/cvfxbase/CVFXController.java:365-369 | empty slots add nothing to the label |
| InfoText.ConcatSetSlot | BaseModule/src/com/plasmoxy/cvfxbase/CVFXController.java:365-369 | setting slot p replaces exactly that slot's piece of the joined text |
| InfoText.InfoLabelShowsState | BaseModule/src/com/plasmoxy/cvfxbase/CVFXController.java:365-369 | the label determines cameraActive, because the two status prefixes differ |
| InfoText.InfoLabelBody | BaseModule/src/com/plasmoxy/cvfxbase/CVFXController.java:365-369 | after the status prefix, the label is exactly the slots joined in index order |
| Visibility.LabelOf | BaseModule/src/com/plasmoxy/cvfxbase/CVFXController.java:376-389 | a slider's label is the node whose fx:id is the slider's id followed by "Label" |
| Visibility.HidableNodes | BaseModule/src/com/plasmoxy/cvfxbase/CVFXController.java:308-323 | the registry is no longer than the field list |
| Visibility.HidableNodesMembers | BaseModule/src/com/plasmoxy/cvfxbase/CVFXController.java:308-323 | a node is in the registry iff some declared field is that node with @Hidable |
| Visibility.HidableNodesAreNodes | BaseModule/src/com/plasmoxy/cvfxbase/CVFXController.java:308-323 | every registry entry is a declared node field |
| Visibility.AffectedMembers | BaseModule/src/com/plasmoxy/cvfxbase/CVFXController.java:376-418 | a node is changed by a hide or show over a list iff it is touched by one list entry: the entry itself, or the entry's label when the entry is a slider and labels are paired |
| Visibility.AffectedUnpaired | src/com/plasmoxy/cvfxbase/CVFXController.java:171-176 | without pairing, a hide or show changes exactly the listed nodes |
| Visibility.SetVisibility | BaseModule/src/com/plasmoxy/cvfxbase/CVFXController.java:376-389 | the nodes of the map stay the same |
| Visibility.SetVisibilityUnion | BaseModule/src/com/plasmoxy/cvfxbase/CVFXController.java:395-399 | hiding (or showing) two groups one after the other is hiding (or showing) their union |
| Visibility.ShowUndoesHide | BaseModule/src/com/plasmoxy/cvfxbase/CVFXController.java:395-409 | showing what was just hidden restores the map, when all of it was visible |
| BaseModuleController.SliderLabelsDeclared | BaseModule/src/com/plasmoxy/cvfxbase/CVFXController.java:72-91 | every declared slider has its label field, so the label lookup never takes the fatal path |
| BaseModuleController.PaletteIsHidable | BaseModule/src/com/plasmoxy/cvfxbase/CVFXController.java:308-323 | buttons A-F, toggles A-H and sliders A-G are all in the registry |
| BaseModuleController.HidableIsPalette | BaseModule/src/com/plasmoxy/cvfxbase/CVFXController.java:308-323 | every registry entry is one of buttons A-F, toggles A-H or sliders A-G |
| BaseModuleController.RegistryIsPalette | BaseModule/src/com/plasmoxy/cvfxbase/CVFXController.java:308-323 | the registry holds exactly buttons A-F, toggles A-H and sliders A-G |
| BaseModuleController.HideAllTouchesPaletteAndLabels | BaseModule/src/com/plasmoxy/cvfxbase/CVFXController.java:414-418 | hideAll over the registry changes exactly the palette and the seven slider labels; cameraButton, the image views and infoLabel are not touched |
| BaseModuleController.Controller.constructor | BaseModule/src/com/plasmoxy/cvfxbase/CVFXController.java:161-164 | 32 slots, all ""; Main on, Alpha and Beta off; id 0; camera idle; device closed; no timer; empty registry; every declared node visible |
| BaseModuleController.Controller.InitController | BaseModule/src/com/plasmoxy/cvfxbase/CVFXController.java:281-327 | a fresh closed device; the registry grows by exactly the hidable node fields, in declaration order |
| BaseModuleController.Controller.RegisterHidable | BaseModule/src/com/plasmoxy/cvfxbase/CVFXController.java:308-323 | the scan loop appends exactly the hidable node fields, in declaration order, to the registry |
| BaseModuleController.Controller.CloseController | BaseModule/src/com/plasmoxy/cvfxbase/CVFXController.java:349-351 | the effect of stopRendering: inactive, device released, stopped label |
| BaseModuleController.Controller.SetCameraID | BaseModule/src/com/plasmoxy/cvfxbase/CVFXController.java:232-235 | the camera state becomes Camera.SetCameraId's: id max(id, 0), button refreshed |
| BaseModuleController.Controller.SetInfoText | BaseModule/src/com/plasmoxy/cvfxbase/CVFXController.java:248-255 | the slots become SetSlot's, so only slot p changes, and only when p < 32; the label is recomputed |
| BaseModuleController.Controller.GetInfoText | BaseModule/src/com/plasmoxy/cvfxbase/CVFXController.java:262-269 | slot p, or "ERROR" when p >= 32 |
| BaseModuleController.Controller.UpdateStartButtonText | BaseModule/src/com/plasmoxy/cvfxbase/CVFXController.java:358-360 | the button shows "Start Camera " followed by the id |
| BaseModuleController.Controller.ComposeInfoLabel | BaseModule/src/com/plasmoxy/cvfxbase/CVFXController.java:365-369 | the loop builds the status prefix followed by every slot in index order; nothing changes |
| BaseModuleController.Controller.UpdateInfoLabel | BaseModule/src/com/plasmoxy/cvfxbase/CVFXController.java:365-369 | the label text is the composed text |
| BaseModuleController.Controller.SetVisibleDetected | BaseModule/src/com/plasmoxy/cvfxbase/CVFXController.java:376-389 | a slider and its label get the value; any other node alone gets it; nothing else changes |
| BaseModuleController.Controller.Hide | BaseModule/src/com/plasmoxy/cvfxbase/CVFXController.java:395-399 | every listed node, and the label of every listed slider, becomes invisible; every other node keeps its visibility |
| BaseModuleController.Controller.Show | BaseModule/src/com/plasmoxy/cvfxbase/CVFXController.java:405-409 | every listed node, and the label of every listed slider, becomes visible; every other node keeps its visibility |
| BaseModuleController.Controller.HideAll | BaseModule/src/com/plasmoxy/cvfxbase/CVFXController.java:414-418 | every registry entry and the label of every registered slider becomes invisible; every other node keeps its visibility |
| BaseModuleController.Controller.StartCamera | BaseModule/src/com/plasmoxy/cvfxbase/CVFXController.java:486-503 | the camera state and the calls follow Camera.StartCamera; the label is recomputed whenever rendering starts or stops |
| BaseModuleController.Controller.IncreaseCamera | BaseModule/src/com/plasmoxy/cvfxbase/CVFXController.java:509-513 | the camera state and the calls follow Camera.IncreaseCamera |
| BaseModuleController.Controller.DecreaseCamera | BaseModule/src/com/plasmoxy/cvfxbase/CVFXController.java:519-523 | the camera state and the calls follow Camera.DecreaseCamera |
| BaseModuleController.Controller.SetRenderActive | BaseModule/src/com/plasmoxy/cvfxbase/CVFXController.java:531-549 | the chosen view's render flag becomes the toggle's state; the other two are unchanged |
| BaseModuleController.Controller.GrabFrame | BaseModule/src/com/plasmoxy/cvfxbase/CVFXController.java:615-625 | the frame Render.GrabbedFrame specifies |
| BaseModuleController.Controller.FrameRenderer | BaseModule/src/com/plasmoxy/cvfxbase/CVFXController.java:129-149 | process is called iff the grabbed frame is non-empty; the posts satisfy IsTickOutput (exactly the render targets, once each, ordered Main, Alpha, Beta, images from the processed buffers) |
| BaseModuleController.Controller.StartRendering | BaseModule/src/com/plasmoxy/cvfxbase/CVFXController.java:630-636 | the timer runs, one Schedule call is recorded, the label is recomputed |
| BaseModuleController.Controller.StopRendering | BaseModule/src/com/plasmoxy/cvfxbase/CVFXController.java:641-658 | the camera state and the calls follow Camera.StopRendering; the label shows the stopped prefix |
| SrcBaseController.HidableSetIsHidable | src/com/plasmoxy/cvfxbase/CVFXController.java:127-141 | the palette and the seven slider labels are all in the registry |
| SrcBaseController.HidableIsHidableSet | src/com/plasmoxy/cvfxbase/CVFXController.java:127-141 | every registry entry is in the palette or is one of the seven slider labels |
| SrcBaseController.RegistryIsHidableSet | src/com/plasmoxy/cvfxbase/CVFXController.java:127-141 | the registry holds exactly the palette and the seven slider labels |
| SrcBaseController.HideAllAgreesWithBaseModule | src/com/plasmoxy/cvfxbase/CVFXController.java:177-181 | this version's hideAll (labels registered, no pairing) changes the same nodes as the BaseModule's (sliders registered, labels paired) |
| SrcBaseController.Controller.constructor | src/com/plasmoxy/cvfxbase/CVFXController.java:58-71 | an empty info-text list and an empty registry; Main on, Alpha and Beta off; camera idle with id 0 |
| SrcBaseController.Controller.InitController | src/com/plasmoxy/cvfxbase/CVFXController.java:103-145 | the info text grows by exactly 16 "" and keeps its old entries; the registry grows by the hidable node fields in order; a fresh closed device |
| SrcBaseController.Controller.RegisterHidable | src/com/plasmoxy/cvfxbase/CVFXController.java:127-141 | the scan loop appends exactly the hidable node fields (labels included), in declaration order, to the registry |
| SrcBaseController.Controller.CloseController | src/com/plasmoxy/cvfxbase/CVFXController.java:153-155 | the effect of stopRendering |
| SrcBaseController.Controller.UpdateStartText | src/com/plasmoxy/cvfxbase/CVFXController.java:159-161 | the button shows "Start Camera " followed by the id |
| SrcBaseController.Controller.ComposeInfoLabel | src/com/plasmoxy/cvfxbase/CVFXController.java:164-168 | the loop builds the status prefix followed by every slot in order |
| SrcBaseController.Controller.UpdateInfoLabel | src/com/plasmoxy/cvfxbase/CVFXController.java:164-168 | the label text is the composed text |
| SrcBaseController.Controller.Hide | src/com/plasmoxy/cvfxbase/CVFXController.java:171-173 | exactly the listed nodes become invisible |
| SrcBaseController.Controller.Show | src/com/plasmoxy/cvfxbase/CVFXController.java:174-176 | exactly the listed nodes become visible |
| SrcBaseController.Controller.HideAll | src/com/plasmoxy/cvfxbase/CVFXController.java:177-181 | exactly the registry entries become invisible |
| SrcBaseController.Controller.StartCamera | src/com/plasmoxy/cvfxbase/CVFXController.java:200-217 | the camera state and the calls follow Camera.StartCamera |
| SrcBaseController.Controller.IncreaseCamera | src/com/plasmoxy/cvfxbase/CVFXController.java:220-224 | the camera state and the calls follow Camera.IncreaseCamera |
| SrcBaseController.Controller.DecreaseCamera | src/com/plasmoxy/cvfxbase/CVFXController.java:227-231 | the camera state and the calls follow Camera.DecreaseCamera |
| SrcBaseController.Controller.SetRenderActive | src/com/plasmoxy/cvfxbase/CVFXController.java:235-243 | the chosen view's render flag becomes the toggle's state; the others are unchanged |
| SrcBaseController.Controller.GrabFrame | src/com/plasmoxy/cvfxbase/CVFXController.java:267-277 | the frame Render.GrabbedFrame specifies |
| SrcBaseController.Controller.FrameRenderer | src/com/plasmoxy/cvfxbase/CVFXController.java:76-96 | the same decision as the BaseModule: process iff the frame is non-empty; posts satisfy IsTickOutput |
| SrcBaseController.Controller.StartRendering | src/com/plasmoxy/cvfxbase/CVFXController.java:279-285 | the timer runs, one Schedule call is recorded, the label is recomputed |
| SrcBaseController.Controller.StopRendering | src/com/plasmoxy/cvfxbase/CVFXController.java:287-304 | the camera state and the calls follow Camera.StopRendering; the label shows the stopped prefix |
| SrcAppController.StatusText | src/com/plasmoxy/cvfxapp/CVFXController.java:163-186 | the status text is "- Rendering active -" exactly when rendering is active |
| SrcAppController.Controller.constructor | src/com/plasmoxy/cvfxapp/CVFXController.java:41-46 | Main on, Alpha and Beta off; camera idle with id 0; no timer |
| SrcAppController.Controller.InitController | src/com/plasmoxy/cvfxapp/CVFXController.java:75-87 | a fresh, closed capture device |
| SrcAppController.Controller.CloseController | src/com/plasmoxy/cvfxapp/CVFXController.java:89-91 | the effect of stopRendering, ending with "- Rendering stopped -" |
| SrcAppController.Controller.UpdateStartText | src/com/plasmoxy/cvfxapp/CVFXController.java:115-117 | the button shows "Start Camera " followed by the id |
| SrcAppController.Controller.StartCamera | src/com/plasmoxy/cvfxapp/CVFXController.java:96-113 | the camera state and the calls follow Camera.StartCamera; the status shows whether rendering ended active whenever it started or stopped |
| SrcAppController.Controller.IncreaseCamera | src/com/plasmoxy/cvfxapp/CVFXController.java:120-124 | the camera state and the calls follow Camera.IncreaseCamera; an active camera's status becomes "- Rendering stopped -" |
| SrcAppController.Controller.DecreaseCamera | src/com/plasmoxy/cvfxapp/CVFXController.java:127-131 | the camera state and the calls follow Camera.DecreaseCamera; an active camera's status becomes "- Rendering stopped -" |
| SrcAppController.Controller.SetRenderActive | src/com/plasmoxy/cvfxapp/CVFXController.java:134-146 | the chosen view's render flag becomes the toggle's state; the others are unchanged |
| SrcAppController.Controller.GrabFrame | src/com/plasmoxy/cvfxapp/CVFXController.java:151-161 | the frame Render.GrabbedFrame specifies |
| SrcAppController.Controller.FrameRenderer | src/com/plasmoxy/cvfxapp/CVFXController.java:51-71 | process iff the frame is non-empty; posts satisfy IsTickOutput |
| SrcAppController.Controller.StartRendering | src/com/plasmoxy/cvfxapp/CVFXController.java:163-168 | the timer runs, one Schedule call is recorded, the status is "- Rendering active -" |
| SrcAppController.Controller.StopRendering | src/com/plasmoxy/cvfxapp/CVFXController.java:170-186 | the camera state and the calls follow Camera.StopRendering; the status is "- Rendering stopped -" |
| BaseModuleApp.WindowTitle | BaseModule/src/com/plasmoxy/cvfxbase/CVFXApp.java:176 | the title ends with " [ CVFXBase v1.2 ]", preceded by the @AppTitle value, or by nothing when it is absent |
| BaseModuleApp.WindowTitleInjective | BaseModule/src/com/plasmoxy/cvfxbase/CVFXApp.java:176 | two annotated titles give the same window title only when they are equal |
| BaseModuleApp.Resolve | BaseModule/src/com/plasmoxy/cvfxbase/CVFXApp.java:111-162 | success iff OpenCV loads, the FXML location is set, there is a public constructor, the first one has @ControllerClass, and instantiation succeeds; a missing annotation, an InstantiationException, an IllegalAccessException and an exception thrown by the controller's constructor each give their own failure; on success, the annotated class and the composed title; a missing library fails first; a null FXML location fails next, before any constructor is examined; no constructor fails before any annotation is read; once the FXML location is set, every failure except the constructor's own exception is a fatal exit |
| BaseModuleApp.ResolveReadsFirstConstructor | BaseModule/src/com/plasmoxy/cvfxbase/CVFXApp.java:139-149 | only the first public constructor is consulted |
| BaseModuleApp.Application.constructor | BaseModule/src/com/plasmoxy/cvfxbase/CVFXApp.java:56-59 | no stage, no title, no controller, no close handler, no hooks called |
| BaseModuleApp.Application.Start | BaseModule/src/com/plasmoxy/cvfxbase/CVFXApp.java:108-201 | the stage is taken first; the outcome is Resolve's; a failure leaves controller, title, close handler and hooks unchanged; a success creates a fresh controller with the scanned registry, the composed title and the close handler, and calls initController, show, initAfterShow and onAppStarted, each once, in that order |
| BaseModuleApp.Application.Launch | BaseModule/src/com/plasmoxy/cvfxbase/CVFXApp.java:146-197 | the success path of start: a fresh, initialised controller with the scanned registry, the title, the close handler, and the hooks initController, show, initAfterShow, onAppStarted appended once each, in that order |
| BaseModuleApp.Application.SetStageTitle | BaseModule/src/com/plasmoxy/cvfxbase/CVFXApp.java:95-98 | an error is reported iff the stage is not set; only a set stage is retitled |
| BaseModuleApp.Application.CloseRequest | BaseModule/src/com/plasmoxy/cvfxbase/CVFXApp.java:178-182 | with the handler installed, the controller stops rendering: its camera state and calls follow Camera.StopRendering, and the label shows the stopped prefix; its info texts, visibility, registry and render flags are unchanged; without the handler the controller is unchanged |

## Findings

| source | as written | input that shows it | evidently intended | confidence | as-written member | corrected member |
|---|---|---|---|---|---|---|
| BaseModule/src/com/plasmoxy/cvfxbase/CVFXController.java:509-513 | `cameraID++` on a Java int wraps from Integer.MAX_VALUE to Integer.MIN_VALUE, so the camera id, which `setCameraID` and `decreaseCamera` keep non-negative, becomes negative | an idle controller with `cameraID` = 2147483647, then increaseCamera | the id should stay a non-negative device index (it stays at the largest int here) | not executed | Camera.IncreaseCameraAsWrittenWraps | Camera.IncreaseCamera |
| src/com/plasmoxy/cvfxbase/CVFXController.java:220-224 | the same `cameraID++` wrap-around | an idle controller with `cameraID` = 2147483647, then increaseCamera | the id stays a non-negative device index | not executed | Camera.IncreaseCameraAsWrittenWraps | Camera.IncreaseCamera |
| src/com/plasmoxy/cvfxapp/CVFXController.java:120-124 | the same `cameraID++` wrap-around | an idle controller with `cameraID` = 2147483647, then increaseCamera | the id stays a non-negative device index | not executed | Camera.IncreaseCameraAsWrittenWraps | Camera.IncreaseCamera |

## Left out

- Camera.IncreaseCamera: at Integer.MAX_VALUE it keeps the id instead of wrapping. This is the corrected behaviour from the Findings table; Camera.IncreaseCameraAsWritten models the wrap-around. The three controllers' IncreaseCamera methods follow the corrected function.
- BaseModuleController.Controller.SetInfoText: requires a non-negative position. A negative position makes `List.set` throw, which is not modelled.
- BaseModuleController.Controller.GetInfoText: requires a non-negative position. A negative position makes `List.get` throw, which is not modelled.
- BaseModuleController.Controller.Hide, Show and SetVisibleDetected, and SrcBaseController.Controller.Hide and Show: require every node to be one of the controller's own declared node fields. Other nodes of the scene are not modelled.
- BaseModuleController.Controller.InitController, SrcBaseController.Controller.InitController and SrcAppController.Controller.InitController: require an idle camera. `start` calls them once, before any camera event. Replacing the capture object of a running camera is not modelled.
- Threads and timing. The executor's 33 ms schedule, `awaitTermination`, and a tick racing with `stopRendering` are not modelled. The timer is a three-valued flag, and a tick is a method called on its own.
- `Platform.runLater` and `CVUtility.setProperty` are taken as immediate assignments, or as recorded posts that `Render.ApplyPosts` applies in order.
- Reflection. `getDeclaredFields` is an explicit table in declaration order; the Java platform does not promise that order. `getDeclaredField(id + "Label")` is the name-based pairing. Its fatal exit for a missing label cannot happen with the declared fields (BaseModuleController.SliderLabelsDeclared). The IllegalAccessException branch of the scan is not modelled, because the scan reads the class's own fields.
- OpenCV. `Mat` contents are an identity, and `process` is the buffers it leaves. `VideoCapture.open` is a boolean outcome. `CVUtility.mat2Image` is not part of this model.
- JavaFX layout and window calls are not modelled: fit width, preserve ratio, scene, `sizeToScene`, minimum size and maximise. Loading the FXML is not modelled either, so its IOException is absent; only "stage shown" is a recorded event.
- The slider listeners and callback hooks (`sliderXChanged`, `toggleXChanged`, `buttonXPressed`, `init`, `initAfterShow`, `onAppStarted`) are empty or the user's code. They appear only as events in the hook order.
- Logging (`log`, `setLoggingActive`, the printed messages) is not modelled. `System.exit(-1)` is a Failure result.
- The initial texts of the button and the labels come from the FXML file; they are modelled as "".
- Initial visibility also comes from the FXML file. The model starts every declared node visible, which is JavaFX's default for a node.
- The other app classes (src/com/plasmoxy/cvfxbase/CVFXApp.java, src/com/plasmoxy/cvfxapp/CVFXApp.java) and the annotation declarations contain no decision logic and are not part of this model.
- Getters such as `getCameraID` and `isCameraActive` are field reads and are not modelled.
- The older controller's public `infoText` list can be changed by any code, so its invariant fixes no slot count.
