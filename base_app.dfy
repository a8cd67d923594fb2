/**
 * The BaseModule application (CVFXApp v1.2): the checks `start` makes on the
 * subclass's metadata before it creates the controller, the window title it
 * composes, the order of the lifecycle hooks, and the close handler.
 * Reflection is replaced by explicit metadata; `System.exit(-1)` becomes a
 * failure result.
 */
module BaseModuleApp {
  import opened Wrappers
  import Camera
  import InfoText
  import Visibility
  import BaseModuleController

  const VERSION := "v1.2"
  /** What `start` appends to the annotated title. */
  const TITLE_SUFFIX := " [ CVFXBase " + VERSION + " ]"

  /**
   * What instantiating the annotated controller class does: it succeeds, it
   * raises InstantiationException or IllegalAccessException, or the
   * controller's own constructor throws an unchecked exception, which
   * `Class.newInstance` passes on and neither catch handles.
   */
  datatype Instantiation = Instantiates | InstantiationFails | AccessDenied | ConstructorThrows

  /** A `@ControllerClass` annotation: the class it names and how instantiating it goes. */
  datatype ControllerBinding = ControllerBinding(className: string, instantiation: Instantiation)

  /** One public constructor of the application subclass, with its annotations. */
  datatype ConstructorMeta = ConstructorMeta(controller: Option<ControllerBinding>, title: Option<string>)

  /** What `start` learns about its environment and its subclass. */
  datatype AppMeta = AppMeta(openCvLoaded: bool, fxmlPresent: bool, constructors: seq<ConstructorMeta>)

  /** Why `start` gives up. */
  datatype Failure =
    | OpenCvNotLoaded
    | FxmlLocationNull
    | NoPublicConstructor
    | NoControllerAnnotation
    | InstantiationFailed
    | ControllerConstructorThrew
    | AccessFailed

  /**
   * The failures that end the process with `System.exit(-1)`; the null FXML
   * location and an exception from the controller's constructor are thrown
   * out of `start` instead.
   */
  predicate IsFatalExit(f: Failure) {
    f != FxmlLocationNull && f != ControllerConstructorThrew
  }

  /** The controller class `start` instantiates and the title it gives the window. */
  datatype Resolution = Resolution(controllerClass: string, title: string)

  /** The window title: the `@AppTitle` value, or nothing, followed by the version banner. */
  function WindowTitle(annotated: Option<string>): (t: string)
    ensures |t| >= |TITLE_SUFFIX| && t[|t| - |TITLE_SUFFIX|..] == TITLE_SUFFIX
    ensures annotated.Some? ==> t[..|t| - |TITLE_SUFFIX|] == annotated.value
    ensures annotated.None? ==> t == TITLE_SUFFIX
  {
    (if annotated.Some? then annotated.value else "") + TITLE_SUFFIX
  }

  /**
   * `start`'s checks in the order it makes them: the native library, the FXML
   * location, a public constructor, the controller annotation on the first
   * one, then the instantiation; the title is read once the controller exists.
   */
  function Resolve(meta: AppMeta): (r: Result<Resolution, Failure>)
    ensures r.Success? <==>
      && meta.openCvLoaded && meta.fxmlPresent && |meta.constructors| > 0
      && meta.constructors[0].controller.Some?
      && meta.constructors[0].controller.value.instantiation == Instantiates
    ensures r.Success? ==>
      && r.value.controllerClass == meta.constructors[0].controller.value.className
      && r.value.title == WindowTitle(meta.constructors[0].title)
    ensures !meta.openCvLoaded ==> r == Failure(OpenCvNotLoaded)
    ensures meta.openCvLoaded && !meta.fxmlPresent ==> r == Failure(FxmlLocationNull)
    ensures meta.openCvLoaded && meta.fxmlPresent && |meta.constructors| == 0 ==> r == Failure(NoPublicConstructor)
    ensures meta.openCvLoaded && meta.fxmlPresent && |meta.constructors| > 0 ==>
      var first := meta.constructors[0];
      && (first.controller.None? ==> r == Failure(NoControllerAnnotation))
      && (first.controller.Some? && first.controller.value.instantiation == InstantiationFails ==>
            r == Failure(InstantiationFailed))
      && (first.controller.Some? && first.controller.value.instantiation == AccessDenied ==>
            r == Failure(AccessFailed))
      && (first.controller.Some? && first.controller.value.instantiation == ConstructorThrows ==>
            r == Failure(ControllerConstructorThrew))
    ensures r.Failure? && meta.fxmlPresent && r.error != ControllerConstructorThrew ==> IsFatalExit(r.error)
    ensures r.Failure? && !IsFatalExit(r.error) ==> meta.openCvLoaded
  {
    if !meta.openCvLoaded then Failure(OpenCvNotLoaded)
    else if !meta.fxmlPresent then Failure(FxmlLocationNull)
    else if |meta.constructors| == 0 then Failure(NoPublicConstructor)
    else
      var first := meta.constructors[0];
      match first.controller
      case None => Failure(NoControllerAnnotation)
      case Some(binding) =>
        match binding.instantiation
        case InstantiationFails => Failure(InstantiationFailed)
        case AccessDenied => Failure(AccessFailed)
        case ConstructorThrows => Failure(ControllerConstructorThrew)
        case Instantiates => Success(Resolution(binding.className, WindowTitle(first.title)))
  }

  /** Only the first constructor is consulted: the others change nothing. */
  lemma ResolveReadsFirstConstructor(meta: AppMeta, rest: seq<ConstructorMeta>)
    requires |meta.constructors| > 0
    ensures Resolve(meta) == Resolve(meta.(constructors := [meta.constructors[0]] + rest))
  {
  }

  /** The window title names the annotation it came from. */
  lemma WindowTitleInjective(a: Option<string>, b: Option<string>)
    requires a.Some? && b.Some? && WindowTitle(a) == WindowTitle(b)
    ensures a == b
  {
    var ta, tb := WindowTitle(a), WindowTitle(b);
    assert ta[..|ta| - |TITLE_SUFFIX|] == a.value;
    assert tb[..|tb| - |TITLE_SUFFIX|] == b.value;
  }

  /** The controller and application hooks `start` calls, with the stage being shown. */
  datatype Hook = InitControllerHook | StageShown | InitAfterShowHook | AppStartedHook

  /** The order of a successful start. */
  const LIFECYCLE: seq<Hook> := [InitControllerHook, StageShown, InitAfterShowHook, AppStartedHook]

  class Application {
    /** Whether `appstage` has been assigned. */
    var stageSet: bool
    var stageTitle: string
    /** Whether the window title was ever set; a fresh stage has no title. */
    var titled: bool
    var controller: BaseModuleController.Controller?
    var closeHandlerSet: bool
    /** The hooks called so far, oldest first. */
    var hooks: seq<Hook>

    constructor ()
      ensures !stageSet && !titled && stageTitle == "" && controller == null && !closeHandlerSet && hooks == []
    {
      stageSet, titled, stageTitle := false, false, "";
      controller := null;
      closeHandlerSet := false;
      hooks := [];
    }

    /**
     * `start`: take the stage, resolve the metadata, and on success launch
     * the resolved controller. A failure stops before any controller, title,
     * handler or hook.
     */
    method Start(meta: AppMeta) returns (r: Result<Resolution, Failure>)
      modifies this
      ensures r == Resolve(meta) && stageSet
      ensures r.Failure? ==>
        && controller == old(controller) && hooks == old(hooks)
        && stageTitle == old(stageTitle) && titled == old(titled)
        && closeHandlerSet == old(closeHandlerSet)
      ensures r.Success? ==>
        && controller != null && fresh(controller) && controller.Valid()
        && titled && stageTitle == r.value.title && closeHandlerSet
        && hooks == old(hooks) + LIFECYCLE
        && controller.nodesToHide == Visibility.HidableNodes(BaseModuleController.Fields)
        && !controller.cameraActive && !controller.captureOpen
    {
      stageSet := true;
      r := Resolve(meta);
      if r.Success? {
        Launch(r.value.title);
      }
    }

    /**
     * The rest of a successful `start`: create and bind the controller, set
     * the title and the close handler, initialise the controller, show the
     * stage, then call the two late hooks.
     */
    method Launch(title: string)
      modifies this
      ensures stageSet == old(stageSet)
      ensures controller != null && fresh(controller) && controller.Valid()
      ensures titled && stageTitle == title && closeHandlerSet
      ensures hooks == old(hooks) + LIFECYCLE
      ensures controller.nodesToHide == Visibility.HidableNodes(BaseModuleController.Fields)
      ensures !controller.cameraActive && !controller.captureOpen
    {
      var c := new BaseModuleController.Controller();
      controller := c;
      stageTitle, titled := title, true;
      closeHandlerSet := true;
      c.InitController();
      hooks := hooks + [InitControllerHook];
      hooks := hooks + [StageShown];
      hooks := hooks + [InitAfterShowHook];
      hooks := hooks + [AppStartedHook];
    }

    /** `setStageTitle`: retitle a stage that exists; otherwise only report the error. */
    method SetStageTitle(title: string) returns (reportedError: bool)
      modifies this`stageTitle, this`titled
      ensures reportedError <==> !stageSet
      ensures stageSet ==> stageTitle == title && titled
      ensures !stageSet ==> stageTitle == old(stageTitle) && titled == old(titled)
    {
      if !stageSet {
        reportedError := true;
      } else {
        reportedError := false;
        stageTitle, titled := title, true;
      }
    }

    /** A close request on the stage: the handler `start` installed stops the controller's rendering. */
    method CloseRequest()
      requires closeHandlerSet ==> controller != null && controller.Valid()
      modifies controller
      ensures closeHandlerSet ==>
        && controller.Valid() && !controller.cameraActive && !controller.captureOpen
        && controller.Cam() == Camera.StopRendering(old(controller.Cam())).state
        && controller.calls == old(controller.calls) + Camera.StopRendering(old(controller.Cam())).calls
        && controller.infoLabelText == InfoText.InfoLabel(false, controller.infoText)
      ensures closeHandlerSet ==>
        && controller.infoText == old(controller.infoText)
        && controller.visible == old(controller.visible)
        && controller.nodesToHide == old(controller.nodesToHide)
        && controller.renderMainActive == old(controller.renderMainActive)
        && controller.renderAlphaActive == old(controller.renderAlphaActive)
        && controller.renderBetaActive == old(controller.renderBetaActive)
      ensures !closeHandlerSet && controller != null ==> unchanged(controller)
    {
      if closeHandlerSet {
        controller.CloseController();
      }
    }
  }
}
