/**
 * The visibility registry shared by the controller variants. A table of the
 * controller's declared fields stands in for the reflection scan; each node
 * field is identified by a NodeId whose FxId is the field's name, and a
 * slider's label is the node whose name is the slider's name followed by
 * "Label".
 */
module Visibility {

  /** The node fields a controller declares; the letter is the field's last character. */
  datatype NodeId =
    | ImageViewMain | ImageViewAlpha | ImageViewBeta
    | CameraButton
    | Button(letter: char)
    | Toggle(letter: char)
    | Slider(letter: char)
    | SliderLabel(letter: char)
    | InfoLabelNode
    | StatusLabel

  /** The field's name, which is also the node's fx:id. */
  function FxId(n: NodeId): string {
    match n
    case ImageViewMain => "imageViewMain"
    case ImageViewAlpha => "imageViewAlpha"
    case ImageViewBeta => "imageViewBeta"
    case CameraButton => "cameraButton"
    case Button(c) => "button" + [c]
    case Toggle(c) => "toggle" + [c]
    case Slider(c) => "slider" + [c]
    case SliderLabel(c) => "slider" + [c] + "Label"
    case InfoLabelNode => "infoLabel"
    case StatusLabel => "infoLabelA"
  }

  /** The label paired with a slider (looked up as `getDeclaredField(id + "Label")`). */
  function LabelOf(slider: NodeId): (paired: NodeId)
    requires slider.Slider?
    ensures FxId(paired) == FxId(slider) + "Label"
  {
    SliderLabel(slider.letter)
  }

  /** One declared field of a controller class: a node field with or without `@Hidable`, or a non-node field. */
  datatype FieldDecl = NodeField(node: NodeId, hidable: bool) | OtherField(name: string)

  /** The scan's test: the field's type is a Node and the field is annotated `@Hidable`. */
  predicate IsHidableNode(f: FieldDecl) {
    f.NodeField? && f.hidable
  }

  /** The registry the scan builds: the hidable node fields, in declaration order. */
  function HidableNodes(fields: seq<FieldDecl>): (r: seq<NodeId>)
    ensures |r| <= |fields|
  {
    if fields == [] then []
    else
      var last := fields[|fields| - 1];
      HidableNodes(fields[..|fields| - 1]) + (if IsHidableNode(last) then [last.node] else [])
  }

  /** The node fields, the domain of a controller's visibility map. */
  function NodeSet(fields: seq<FieldDecl>): set<NodeId> {
    set i | 0 <= i < |fields| && fields[i].NodeField? :: fields[i].node
  }

  /** A registry entry is a hidable node field of the table, and every hidable node field is an entry. */
  lemma {:induction false} HidableNodesMembers(fields: seq<FieldDecl>, n: NodeId)
    ensures n in HidableNodes(fields) <==>
      exists i :: 0 <= i < |fields| && IsHidableNode(fields[i]) && fields[i].node == n
    decreases |fields|
  {
    if fields != [] {
      var init := fields[..|fields| - 1];
      HidableNodesMembers(init, n);
      assert forall i :: 0 <= i < |init| ==> init[i] == fields[i];
      if n in HidableNodes(fields) && n !in HidableNodes(init) {
        assert fields[|fields| - 1].node == n;
      }
    }
  }

  /** Every registry entry is a node of the table. */
  lemma HidableNodesAreNodes(fields: seq<FieldDecl>)
    ensures forall n :: n in HidableNodes(fields) ==> n in NodeSet(fields)
  {
    forall n | n in HidableNodes(fields) ensures n in NodeSet(fields) {
      HidableNodesMembers(fields, n);
    }
  }

  /**
   * The nodes one `setVisibleDetected` call changes: the node, and with label
   * pairing a slider's label too.
   */
  function Touched(n: NodeId, pairLabels: bool): set<NodeId> {
    if pairLabels && n.Slider? then {n, LabelOf(n)} else {n}
  }

  /** The nodes a `hide` or `show` over `nodes` changes. */
  function Affected(nodes: seq<NodeId>, pairLabels: bool): set<NodeId> {
    if nodes == [] then {}
    else Affected(nodes[..|nodes| - 1], pairLabels) + Touched(nodes[|nodes| - 1], pairLabels)
  }

  lemma {:induction false} AffectedMembers(nodes: seq<NodeId>, pairLabels: bool, m: NodeId)
    ensures m in Affected(nodes, pairLabels) <==>
      exists i :: 0 <= i < |nodes| && m in Touched(nodes[i], pairLabels)
    decreases |nodes|
  {
    if nodes != [] {
      var init := nodes[..|nodes| - 1];
      AffectedMembers(init, pairLabels, m);
      assert forall i :: 0 <= i < |init| ==> init[i] == nodes[i];
    }
  }

  /** Without label pairing a hide or show changes exactly the listed nodes. */
  lemma {:induction false} AffectedUnpaired(nodes: seq<NodeId>)
    ensures Affected(nodes, false) == set i | 0 <= i < |nodes| :: nodes[i]
    decreases |nodes|
  {
    if nodes != [] {
      var init := nodes[..|nodes| - 1];
      AffectedUnpaired(init);
      assert forall i :: 0 <= i < |init| ==> init[i] == nodes[i];
    }
  }

  /** Every node in `targets` gets visibility `v`; every other node keeps its visibility. */
  function SetVisibility(vis: map<NodeId, bool>, targets: set<NodeId>, v: bool): (r: map<NodeId, bool>)
    ensures r.Keys == vis.Keys
  {
    map n | n in vis :: if n in targets then v else vis[n]
  }

  /** Two updates to the same value are one update of the union. */
  lemma SetVisibilityUnion(vis: map<NodeId, bool>, a: set<NodeId>, b: set<NodeId>, v: bool)
    ensures SetVisibility(SetVisibility(vis, a, v), b, v) == SetVisibility(vis, a + b, v)
  {
    var l, r := SetVisibility(SetVisibility(vis, a, v), b, v), SetVisibility(vis, a + b, v);
    assert forall n :: n in l ==> l[n] == r[n];
  }

  /** Showing what was just hidden gives back the visibility from before, when all of it was shown. */
  lemma ShowUndoesHide(vis: map<NodeId, bool>, targets: set<NodeId>)
    requires forall n :: n in targets && n in vis ==> vis[n]
    ensures SetVisibility(SetVisibility(vis, targets, false), targets, true) == vis
  {
    var r := SetVisibility(SetVisibility(vis, targets, false), targets, true);
    assert forall n :: n in r ==> r[n] == vis[n];
  }
}
