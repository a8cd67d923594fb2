/**
 * The per-tick render decision shared by the three controller variants
 * (the `frameRenderer` task), and the UI thread applying the posted images.
 * A frame is abstracted to empty or an image with an identity.
 */
module Render {

  datatype Frame = Empty | Image(id: nat)

  /** What one `read` on an open device gives: a frame, or an exception. */
  datatype ReadOutcome = Read(frame: Frame) | ReadThrows

  datatype Target = Main | Alpha | Beta

  /** The three buffers after the user's `process` callback has run on them. */
  datatype Buffers = Buffers(main: Frame, alpha: Frame, beta: Frame) {
    function Of(t: Target): Frame {
      match t
      case Main => main
      case Alpha => alpha
      case Beta => beta
    }
  }

  /** One hand-off of an image to a view through the UI thread. */
  datatype Post = Post(target: Target, image: Frame)

  /**
   * `grabFrame`: start from an empty frame and read into it only when the
   * device is open; an exception during the read leaves it empty.
   */
  function GrabbedFrame(deviceOpen: bool, read: ReadOutcome): (frame: Frame)
    ensures frame.Image? <==> deviceOpen && read.Read? && read.frame.Image?
    ensures frame.Image? ==> frame == read.frame
  {
    if deviceOpen && read.Read? then read.frame else Empty
  }

  /**
   * The views a tick posts to: none for an empty frame; otherwise Main when
   * its flag is set, and Alpha and Beta when their flag is set and the
   * callback left something in their buffer.
   */
  function RenderTargets(frame: Frame, mainOn: bool, alphaOn: bool, betaOn: bool, processed: Buffers): (r: set<Target>)
    ensures frame.Empty? ==> r == {}
    ensures Main in r <==> frame.Image? && mainOn
    ensures Alpha in r <==> frame.Image? && alphaOn && processed.alpha.Image?
    ensures Beta in r <==> frame.Image? && betaOn && processed.beta.Image?
  {
    if frame.Empty? then {}
    else
      (if mainOn then {Main} else {})
      + (if alphaOn && processed.alpha.Image? then {Alpha} else {})
      + (if betaOn && processed.beta.Image? then {Beta} else {})
  }

  /** The order in which the tick posts to the views. */
  function Rank(t: Target): nat {
    match t
    case Main => 0
    case Alpha => 1
    case Beta => 2
  }

  /**
   * What a tick must post: exactly the render targets, each once, in the
   * order Main, Alpha, Beta, each carrying its processed buffer.
   */
  ghost predicate IsTickOutput(posts: seq<Post>, frame: Frame, mainOn: bool, alphaOn: bool, betaOn: bool, processed: Buffers) {
    var targets := RenderTargets(frame, mainOn, alphaOn, betaOn, processed);
    && (forall i :: 0 <= i < |posts| ==> posts[i].target in targets && posts[i].image == processed.Of(posts[i].target))
    && (forall t :: t in targets ==> exists i :: 0 <= i < |posts| && posts[i].target == t)
    && (forall i, j :: 0 <= i < j < |posts| ==> Rank(posts[i].target) < Rank(posts[j].target))
  }

  /** The posts a tick makes, in the order the source makes them: Main, then Alpha, then Beta. */
  function TickPosts(frame: Frame, mainOn: bool, alphaOn: bool, betaOn: bool, processed: Buffers): seq<Post> {
    if frame.Empty? then []
    else
      (if mainOn then [Post(Main, processed.main)] else [])
      + (if alphaOn && processed.alpha.Image? then [Post(Alpha, processed.alpha)] else [])
      + (if betaOn && processed.beta.Image? then [Post(Beta, processed.beta)] else [])
  }

  /** The sequential posting meets the tick specification. */
  lemma TickPostsMeetSpec(frame: Frame, mainOn: bool, alphaOn: bool, betaOn: bool, processed: Buffers)
    ensures IsTickOutput(TickPosts(frame, mainOn, alphaOn, betaOn, processed), frame, mainOn, alphaOn, betaOn, processed)
  {
    var posts := TickPosts(frame, mainOn, alphaOn, betaOn, processed);
    if frame.Image? {
      var alphaAt := if mainOn then 1 else 0;
      var betaAt := alphaAt + if alphaOn && processed.alpha.Image? then 1 else 0;
      assert mainOn ==> posts[0].target == Main;
      assert alphaOn && processed.alpha.Image? ==> posts[alphaAt].target == Alpha;
      assert betaOn && processed.beta.Image? ==> posts[betaAt].target == Beta;
    }
  }

  /**
   * The UI thread applies the posts to the views in the order they were made
   * (first in, first out for each view).
   */
  function ApplyPosts(views: map<Target, Frame>, posts: seq<Post>): (r: map<Target, Frame>)
    ensures r.Keys == views.Keys + (set i | 0 <= i < |posts| :: posts[i].target)
    decreases |posts|
  {
    if posts == [] then views
    else
      var r := ApplyPosts(views[posts[0].target := posts[0].image], posts[1..]);
      assert forall i :: 1 <= i < |posts| ==> posts[1..][i - 1] == posts[i];
      r
  }

  /** Posting an image to a view last makes it that view's image, whatever was posted before. */
  lemma {:induction false} LastPostWins(views: map<Target, Frame>, posts: seq<Post>, t: Target, f: Frame)
    ensures ApplyPosts(views, posts + [Post(t, f)]) == ApplyPosts(views, posts)[t := f]
    decreases |posts|
  {
    if posts != [] {
      assert (posts + [Post(t, f)])[1..] == posts[1..] + [Post(t, f)];
      LastPostWins(views[posts[0].target := posts[0].image], posts[1..], t, f);
    }
  }

  /**
   * Applying posts whose views are pairwise distinct gives each posted view
   * its posted image and leaves every other view as it was.
   */
  lemma {:induction false} ApplyDistinctPosts(views: map<Target, Frame>, posts: seq<Post>)
    requires forall i, j :: 0 <= i < j < |posts| ==> posts[i].target != posts[j].target
    ensures forall i :: 0 <= i < |posts| ==> ApplyPosts(views, posts)[posts[i].target] == posts[i].image
    ensures forall t :: t in views && (forall i :: 0 <= i < |posts| ==> posts[i].target != t) ==>
      ApplyPosts(views, posts)[t] == views[t]
    decreases |posts|
  {
    if posts != [] {
      var next := views[posts[0].target := posts[0].image];
      ApplyDistinctPosts(next, posts[1..]);
      forall i | 0 <= i < |posts| ensures ApplyPosts(views, posts)[posts[i].target] == posts[i].image {
        if i > 0 { assert posts[1..][i - 1] == posts[i]; }
        else {
          assert forall k :: 0 <= k < |posts[1..]| ==> posts[1..][k].target != posts[0].target by {
            forall k | 0 <= k < |posts[1..]| ensures posts[1..][k].target != posts[0].target {
              assert posts[1..][k] == posts[k + 1];
            }
          }
        }
      }
      forall t | t in views && (forall i :: 0 <= i < |posts| ==> posts[i].target != t)
        ensures ApplyPosts(views, posts)[t] == views[t]
      {
        assert forall k :: 0 <= k < |posts[1..]| ==> posts[1..][k].target != t by {
          forall k | 0 <= k < |posts[1..]| ensures posts[1..][k].target != t {
            assert posts[1..][k] == posts[k + 1];
          }
        }
      }
    }
  }

  /**
   * After the UI thread has applied one tick's posts, each render target shows
   * its processed buffer and every other view keeps its image; an empty frame
   * leaves all views as they were.
   */
  lemma ApplyTickOutput(views: map<Target, Frame>, posts: seq<Post>, frame: Frame,
                        mainOn: bool, alphaOn: bool, betaOn: bool, processed: Buffers)
    requires IsTickOutput(posts, frame, mainOn, alphaOn, betaOn, processed)
    requires forall t: Target :: t in views
    ensures var shown := ApplyPosts(views, posts);
            var targets := RenderTargets(frame, mainOn, alphaOn, betaOn, processed);
            forall t :: t in shown && shown[t] == if t in targets then processed.Of(t) else views[t]
  {
    var targets := RenderTargets(frame, mainOn, alphaOn, betaOn, processed);
    assert forall i, j :: 0 <= i < j < |posts| ==> posts[i].target != posts[j].target by {
      forall i, j | 0 <= i < j < |posts| ensures posts[i].target != posts[j].target {
        assert Rank(posts[i].target) < Rank(posts[j].target);
      }
    }
    ApplyDistinctPosts(views, posts);
    forall t ensures t in ApplyPosts(views, posts) && ApplyPosts(views, posts)[t] == if t in targets then processed.Of(t) else views[t] {
      if t in targets {
        var i :| 0 <= i < |posts| && posts[i].target == t;
      }
    }
  }
}
