/**
 * The info-text slots of the cvfxbase controllers and the text of the info
 * label: a status prefix chosen by `cameraActive`, then every slot in index
 * order.
 */
module InfoText {

  /** Slots the BaseModule constructor allocates. */
  const BASE_SLOTS: nat := 32
  /** Slots the older `initController` appends. */
  const LEGACY_SLOTS: nat := 16

  const ACTIVE_PREFIX: string := "[ Rendering Active ] "
  const STOPPED_PREFIX: string := "[ Rendering stopped ] "
  /** What `getInfoText` answers for a position past the last slot. */
  const NO_SLOT_TEXT: string := "ERROR"

  /** `n` empty strings, as the allocation loops add them. */
  function Blanks(n: nat): (r: seq<string>)
    ensures |r| == n && forall i :: 0 <= i < n ==> r[i] == ""
  {
    if n == 0 then [] else Blanks(n - 1) + [""]
  }

  /** The slots joined in index order (the StringBuilder loop of `updateInfoLabel`). */
  function Concat(slots: seq<string>): string {
    if slots == [] then "" else Concat(slots[..|slots| - 1]) + slots[|slots| - 1]
  }

  function StatusPrefix(active: bool): string {
    if active then ACTIVE_PREFIX else STOPPED_PREFIX
  }

  /** The text `updateInfoLabel` puts on the info label. */
  function InfoLabel(active: bool, slots: seq<string>): string {
    StatusPrefix(active) + Concat(slots)
  }

  /** `setInfoText`'s effect on the slots: replace slot `p` when there is one. */
  function SetSlot(slots: seq<string>, p: nat, text: string): (r: seq<string>)
    ensures |r| == |slots|
    ensures forall i :: 0 <= i < |slots| ==> r[i] == if i == p then text else slots[i]
  {
    if p < |slots| then slots[p := text] else slots
  }

  /** `getInfoText`: the slot at `p`, or "ERROR" past the last slot. */
  function GetSlot(slots: seq<string>, p: nat): (r: string)
    ensures p < |slots| ==> r == slots[p]
    ensures p >= |slots| ==> r == NO_SLOT_TEXT
  {
    if p < |slots| then slots[p] else NO_SLOT_TEXT
  }

  /** Reading a slot back after setting it gives the text set; other slots read as before. */
  lemma GetAfterSet(slots: seq<string>, p: nat, text: string, q: nat)
    ensures GetSlot(SetSlot(slots, p, text), q) == if p == q && p < |slots| then text else GetSlot(slots, q)
  {
  }

  lemma {:induction false} ConcatAppend(a: seq<string>, b: seq<string>)
    ensures Concat(a + b) == Concat(a) + Concat(b)
    decreases |b|
  {
    if b != [] {
      var b' := b[..|b| - 1];
      assert (a + b)[..|a + b| - 1] == a + b';
      assert (a + b)[|a + b| - 1] == b[|b| - 1];
      ConcatAppend(a, b');
      assert Concat(b) == Concat(b') + b[|b| - 1];
    } else {
      assert a + b == a;
    }
  }

  /** Empty slots add nothing to the label. */
  lemma {:induction false} ConcatBlanks(n: nat)
    ensures Concat(Blanks(n)) == ""
  {
    if n > 0 {
      assert Blanks(n)[..n - 1] == Blanks(n - 1);
      ConcatBlanks(n - 1);
    }
  }

  /**
   * Setting slot `p` replaces exactly that slot's piece of the joined text:
   * the slots before it and after it contribute as before.
   */
  lemma ConcatSetSlot(slots: seq<string>, p: nat, text: string)
    requires p < |slots|
    ensures Concat(SetSlot(slots, p, text)) == Concat(slots[..p]) + text + Concat(slots[p + 1..])
  {
    var r := SetSlot(slots, p, text);
    assert r == slots[..p] + [text] + slots[p + 1..];
    ConcatAppend(slots[..p] + [text], slots[p + 1..]);
    ConcatAppend(slots[..p], [text]);
    assert Concat([text]) == text by { assert [text][..0] == []; }
  }

  /** The label tells whether rendering is active: the two prefixes differ. */
  lemma InfoLabelShowsState(a: bool, s: seq<string>, b: bool, t: seq<string>)
    requires InfoLabel(a, s) == InfoLabel(b, t)
    ensures a == b
  {
    assert InfoLabel(a, s)[12] == StatusPrefix(a)[12];
    assert InfoLabel(b, t)[12] == StatusPrefix(b)[12];
  }

  /** After the prefix, the label is exactly the joined slots. */
  lemma InfoLabelBody(a: bool, s: seq<string>)
    ensures InfoLabel(a, s)[|StatusPrefix(a)|..] == Concat(s)
  {
  }
}
