/**
 Which animation tracks decide a camera's frame range, and what that range is.
 The tracks are visited in the order of the plugin's loops (`VisitedKeys`); the
 range is also described without any order (`Relevant`, `IsCameraRange`), and the
 two descriptions are proved to agree.
 */
module FrameRange {
  import opened Wrappers
  import opened Scene
  import opened Intervals

  /** Relative position, rotation and scale of an object. */
  const TRANSFORM_PARAMS: seq<Param> := [RelPosition, RelRotation, RelScale]

  /** Position and segment of an align-to-spline tag. */
  const SPLINE_PARAMS: seq<Param> := [SplinePosition, SplineSegment]

  function First(s: Scene, k: TrackKey): Time
    requires Wf(s) && k in s.tracks
  {
    s.tracks[k][0]
  }

  function Last(s: Scene, k: TrackKey): Time
    requires Wf(s) && k in s.tracks
  {
    s.tracks[k][|s.tracks[k]| - 1]
  }

  /** The (first key, last key) times `getTrackRange` reads from a present track. */
  function TrackBounds(s: Scene, k: TrackKey): Bounds
    requires Wf(s) && k in s.tracks
  {
    (First(s, k), Last(s, k))
  }

  /** Every track listed exists in the scene. */
  ghost predicate Tracked(s: Scene, keys: seq<TrackKey>) {
    forall i :: 0 <= i < |keys| ==> keys[i] in s.tracks
  }

  /** The tracks of `owner` among `params` that exist, in the order of `params`. */
  function Present(s: Scene, owner: Owner, params: seq<Param>): (r: seq<TrackKey>)
    ensures Tracked(s, r)
  {
    if params == [] then []
    else
      var init, p := params[..|params| - 1], params[|params| - 1];
      Present(s, owner, init) + if TrackKey(owner, p) in s.tracks then [TrackKey(owner, p)] else []
  }

  /** A track is listed exactly when it exists, belongs to `owner` and its parameter is one of `params`. */
  lemma {:induction false} PresentMembers(s: Scene, owner: Owner, params: seq<Param>, k: TrackKey)
    ensures k in Present(s, owner, params) <==> k in s.tracks && k.owner == owner && k.param in params
  {
    if params != [] {
      var init, p := params[..|params| - 1], params[|params| - 1];
      assert params == init + [p];
      PresentMembers(s, owner, init, k);
    }
  }

  function BoundsOf(s: Scene, keys: seq<TrackKey>): (r: seq<Bounds>)
    requires Wf(s) && Tracked(s, keys)
    ensures |r| == |keys|
  {
    seq(|keys|, i requires 0 <= i < |keys| => TrackBounds(s, keys[i]))
  }

  lemma BoundsOfAppend(s: Scene, a: seq<TrackKey>, b: seq<TrackKey>)
    requires Wf(s) && Tracked(s, a) && Tracked(s, b)
    ensures BoundsOf(s, a + b) == BoundsOf(s, a) + BoundsOf(s, b)
  {
  }

  /** The bounds read from a list of tracks are exactly the bounds of its members. */
  lemma BoundsOfMembers(s: Scene, keys: seq<TrackKey>, b: Bounds)
    requires Wf(s) && Tracked(s, keys)
    ensures b in BoundsOf(s, keys) <==> exists k :: k in keys && TrackBounds(s, k) == b
  {
    var r := BoundsOf(s, keys);
    if b in r {
      var i :| 0 <= i < |r| && r[i] == b;
      assert keys[i] in keys;
    }
    if exists k :: k in keys && TrackBounds(s, k) == b {
      var k :| k in keys && TrackBounds(s, k) == b;
      var i :| 0 <= i < |keys| && keys[i] == k;
      assert r[i] == b;
    }
  }

  /** One more parameter adds the bounds of its track, when the track is present. */
  lemma PresentStep(s: Scene, owner: Owner, params: seq<Param>, i: nat)
    requires Wf(s) && i < |params|
    ensures BoundsOf(s, Present(s, owner, params[..i + 1]))
            == BoundsOf(s, Present(s, owner, params[..i]))
               + if TrackKey(owner, params[i]) in s.tracks then [TrackBounds(s, TrackKey(owner, params[i]))] else []
  {
    var k := TrackKey(owner, params[i]);
    assert params[..i + 1][..i] == params[..i];
    var added := if k in s.tracks then [k] else [];
    assert Present(s, owner, params[..i + 1]) == Present(s, owner, params[..i]) + added;
    BoundsOfAppend(s, Present(s, owner, params[..i]), added);
  }

  /** `frameRangeFromObject`: the transform tracks of one object. */
  function ObjectKeys(s: Scene, n: NodeId): (r: seq<TrackKey>)
    ensures Tracked(s, r)
  {
    Present(s, ObjectTracks(n), TRANSFORM_PARAMS)
  }

  function AlignTag(s: Scene, n: NodeId): Option<Tag>
    requires n in s.nodes
  {
    FirstTag(s.nodes[n].tags, ALIGN_TO_SPLINE_TAG)
  }

  function TargetTag(s: Scene, n: NodeId): Option<Tag>
    requires n in s.nodes
  {
    FirstTag(s.nodes[n].tags, TARGET_TAG)
  }

  /** A set link contributes the transform tracks of the linked object. */
  function LinkKeys(s: Scene, link: Option<NodeId>): (r: seq<TrackKey>)
    ensures Tracked(s, r)
  {
    if link.Some? then ObjectKeys(s, link.value) else []
  }

  /**
   `frameRangeFromTags`: the tracks of the object's align-to-spline tag, then the
   transform tracks of its target tag's target and up-vector objects. The linked
   objects' own parents and tags are not looked at.
   */
  function TagKeys(s: Scene, n: NodeId): (r: seq<TrackKey>)
    requires n in s.nodes
    ensures Tracked(s, r)
  {
    SplineKeys(s, n) + TargetKeys(s, n)
  }

  /** The position and segment tracks of the object's align-to-spline tag, if it has one. */
  function SplineKeys(s: Scene, n: NodeId): (r: seq<TrackKey>)
    requires n in s.nodes
    ensures Tracked(s, r)
  {
    if AlignTag(s, n).Some? then Present(s, TagTracks(AlignTag(s, n).value.id), SPLINE_PARAMS) else []
  }

  /** The transform tracks of the target and up-vector objects of the object's target tag, if it has one. */
  function TargetKeys(s: Scene, n: NodeId): (r: seq<TrackKey>)
    requires n in s.nodes
    ensures Tracked(s, r)
  {
    if TargetTag(s, n).Some?
    then LinkKeys(s, TargetTag(s, n).value.link) + LinkKeys(s, TargetTag(s, n).value.upLink)
    else []
  }

  /** The tracks visited for a list of objects: per object, its own, then its tags'. */
  function ChainKeys(s: Scene, objs: seq<NodeId>): (r: seq<TrackKey>)
    requires InScene(s, objs)
    ensures Tracked(s, r)
  {
    if objs == [] then []
    else
      var init, o := objs[..|objs| - 1], objs[|objs| - 1];
      assert objs == init + [o];
      ChainKeys(s, init) + ObjectKeys(s, o) + TagKeys(s, o)
  }

  /** One more object of the walk adds its own tracks' bounds, then its tags'. */
  lemma ChainBoundsStep(s: Scene, objs: seq<NodeId>, i: nat)
    requires Wf(s) && InScene(s, objs) && i < |objs|
    ensures BoundsOf(s, ChainKeys(s, objs[..i + 1]))
            == BoundsOf(s, ChainKeys(s, objs[..i])) + BoundsOf(s, ObjectKeys(s, objs[i]))
               + BoundsOf(s, TagKeys(s, objs[i]))
  {
    var a, b, c := ChainKeys(s, objs[..i]), ObjectKeys(s, objs[i]), TagKeys(s, objs[i]);
    assert ChainKeys(s, objs[..i + 1]) == a + b + c by {
      var prefix := objs[..i + 1];
      assert prefix[..i] == objs[..i] && prefix[i] == objs[i];
    }
    BoundsOfAppend(s, a, b);
    BoundsOfAppend(s, a + b, c);
  }

  /** The objects `frameRangeFromCamera` walks: the ancestors, parent first, then the camera. */
  function Chain(s: Scene, cam: NodeId): (r: seq<NodeId>)
    requires Wf(s) && cam in s.nodes
    ensures InScene(s, r)
  {
    Ancestors(s, cam) + [cam]
  }

  /** Every present track the plugin's loops visit for `cam`, in visiting order. */
  function VisitedKeys(s: Scene, cam: NodeId): seq<TrackKey>
    requires Wf(s) && cam in s.nodes
  {
    ChainKeys(s, Chain(s, cam))
  }

  /** The frame range the plugin computes for `cam`. */
  function CameraRange(s: Scene, cam: NodeId): Bounds
    requires Wf(s) && cam in s.nodes
  {
    var f := Fold(BoundsOf(s, VisitedKeys(s, cam)));
    (f.min, f.max)
  }

  /** `o` is the target or up-vector link of the target tag on `c`. */
  ghost predicate LinkedFrom(s: Scene, c: NodeId, o: NodeId)
    requires c in s.nodes
  {
    TargetTag(s, c).Some? && (TargetTag(s, c).value.link == Some(o) || TargetTag(s, c).value.upLink == Some(o))
  }

  /**
   The tracks that influence the camera, described without visiting order: the
   transform tracks of the camera, of its ancestors and of objects linked from
   their target tags, and the spline tracks of their align-to-spline tags.
   */
  ghost predicate Relevant(s: Scene, cam: NodeId, k: TrackKey)
    requires Wf(s) && cam in s.nodes
  {
    match k.owner
    case ObjectTracks(o) =>
      k.param in TRANSFORM_PARAMS &&
      (o in Chain(s, cam) || exists c :: c in Chain(s, cam) && LinkedFrom(s, c, o))
    case TagTracks(t) =>
      k.param in SPLINE_PARAMS &&
      exists c :: c in Chain(s, cam) && AlignTag(s, c).Some? && AlignTag(s, c).value.id == t
  }

  /** The present tracks that influence the camera. */
  ghost function Contributing(s: Scene, cam: NodeId): (ks: set<TrackKey>)
    requires Wf(s) && cam in s.nodes
    ensures forall k :: k in ks ==> k in s.tracks
  {
    set k | k in s.tracks && Relevant(s, cam, k)
  }

  /**
   `r` spans the tracks `ks`: (0, 0) when there are none; otherwise the least
   first-key time and the greatest last-key time among them.
   */
  ghost predicate IsSpan(s: Scene, ks: set<TrackKey>, r: Bounds)
    requires Wf(s) && forall k :: k in ks ==> k in s.tracks
  {
    if ks == {} then
      r == (0, 0)
    else
      && (forall k :: k in ks ==> r.0 <= First(s, k) && Last(s, k) <= r.1)
      && (exists k :: k in ks && First(s, k) == r.0)
      && (exists k :: k in ks && Last(s, k) == r.1)
  }

  /** The intended frame range of a camera: the span of its contributing tracks. */
  ghost predicate IsCameraRange(s: Scene, cam: NodeId, r: Bounds)
    requires Wf(s) && cam in s.nodes
  {
    IsSpan(s, Contributing(s, cam), r)
  }

  lemma {:induction false} ChainKeysMembers(s: Scene, objs: seq<NodeId>, k: TrackKey)
    requires InScene(s, objs)
    ensures k in ChainKeys(s, objs) <==>
            exists o :: o in objs && (k in ObjectKeys(s, o) || k in TagKeys(s, o))
  {
    if objs != [] {
      var init, o := objs[..|objs| - 1], objs[|objs| - 1];
      assert objs == init + [o];
      ChainKeysMembers(s, init, k);
      assert forall x :: x in objs <==> x in init || x == o;
    }
  }

  lemma TagKeysMembers(s: Scene, n: NodeId, k: TrackKey)
    requires n in s.nodes
    ensures k in TagKeys(s, n) <==>
            || (AlignTag(s, n).Some? && k.owner == TagTracks(AlignTag(s, n).value.id)
                && k.param in SPLINE_PARAMS && k in s.tracks)
            || (k.owner.ObjectTracks? && LinkedFrom(s, n, k.owner.node)
                && k.param in TRANSFORM_PARAMS && k in s.tracks)
  {
    if AlignTag(s, n).Some? {
      PresentMembers(s, TagTracks(AlignTag(s, n).value.id), SPLINE_PARAMS, k);
    }
    if TargetTag(s, n).Some? {
      var tag := TargetTag(s, n).value;
      if tag.link.Some? {
        PresentMembers(s, ObjectTracks(tag.link.value), TRANSFORM_PARAMS, k);
      }
      if tag.upLink.Some? {
        PresentMembers(s, ObjectTracks(tag.upLink.value), TRANSFORM_PARAMS, k);
      }
    }
  }

  /** The plugin's loops visit exactly the contributing tracks (some possibly twice). */
  lemma VisitedExactlyContributing(s: Scene, cam: NodeId, k: TrackKey)
    requires Wf(s) && cam in s.nodes
    ensures k in VisitedKeys(s, cam) <==> k in Contributing(s, cam)
  {
    if k in VisitedKeys(s, cam) {
      VisitedContributes(s, cam, k);
    }
    if k in Contributing(s, cam) {
      ContributingVisited(s, cam, k);
    }
  }

  lemma VisitedContributes(s: Scene, cam: NodeId, k: TrackKey)
    requires Wf(s) && cam in s.nodes && k in VisitedKeys(s, cam)
    ensures k in s.tracks && Relevant(s, cam, k)
  {
    var chain := Chain(s, cam);
    ChainKeysMembers(s, chain, k);
    var o :| o in chain && (k in ObjectKeys(s, o) || k in TagKeys(s, o));
    PresentMembers(s, ObjectTracks(o), TRANSFORM_PARAMS, k);
    TagKeysMembers(s, o, k);
  }

  lemma ContributingVisited(s: Scene, cam: NodeId, k: TrackKey)
    requires Wf(s) && cam in s.nodes && k in s.tracks && Relevant(s, cam, k)
    ensures k in VisitedKeys(s, cam)
  {
    var chain := Chain(s, cam);
    ChainKeysMembers(s, chain, k);
    match k.owner
    case ObjectTracks(o) =>
      if o in chain {
        PresentMembers(s, ObjectTracks(o), TRANSFORM_PARAMS, k);
        assert k in ObjectKeys(s, o);
      } else {
        var c :| c in chain && LinkedFrom(s, c, o);
        TagKeysMembers(s, c, k);
      }
    case TagTracks(t) =>
      var c :| c in chain && AlignTag(s, c).Some? && AlignTag(s, c).value.id == t;
      TagKeysMembers(s, c, k);
  }

  /** Folding the bounds of a list of tracks spans the set of its members. */
  lemma FoldIsSpan(s: Scene, keys: seq<TrackKey>, ks: set<TrackKey>)
    requires Wf(s) && forall k :: k in ks ==> k in s.tracks
    requires Tracked(s, keys) && forall k :: k in keys <==> k in ks
    ensures IsSpan(s, ks, (Fold(BoundsOf(s, keys)).min, Fold(BoundsOf(s, keys)).max))
  {
    var bs := BoundsOf(s, keys);
    var r := (Fold(bs).min, Fold(bs).max);
    FoldSpan(bs);
    if keys == [] {
      assert ks == {};
    } else {
      assert keys[0] in ks;
      var lo :| lo in bs && lo.0 == r.0;
      var hi :| hi in bs && hi.1 == r.1;
      BoundsOfMembers(s, keys, lo);
      BoundsOfMembers(s, keys, hi);
      var klo :| klo in keys && TrackBounds(s, klo) == lo;
      var khi :| khi in keys && TrackBounds(s, khi) == hi;
      assert klo in ks && khi in ks;
      forall k | k in ks
        ensures r.0 <= First(s, k) && Last(s, k) <= r.1
      {
        BoundsOfMembers(s, keys, TrackBounds(s, k));
      }
    }
  }

  /** The computed range is the intended one. */
  lemma CameraRangeIsIntended(s: Scene, cam: NodeId)
    requires Wf(s) && cam in s.nodes
    ensures IsCameraRange(s, cam, CameraRange(s, cam))
  {
    forall k
      ensures k in VisitedKeys(s, cam) <==> k in Contributing(s, cam)
    {
      VisitedExactlyContributing(s, cam, k);
    }
    FoldIsSpan(s, VisitedKeys(s, cam), Contributing(s, cam));
  }

  /** At most one range spans a set of tracks. */
  lemma SpanUnique(s: Scene, ks: set<TrackKey>, r1: Bounds, r2: Bounds)
    requires Wf(s) && forall k :: k in ks ==> k in s.tracks
    requires IsSpan(s, ks, r1) && IsSpan(s, ks, r2)
    ensures r1 == r2
  {
    if ks != {} {
      var a :| a in ks && First(s, a) == r1.0;
      var b :| b in ks && First(s, b) == r2.0;
      var c :| c in ks && Last(s, c) == r1.1;
      var d :| d in ks && Last(s, d) == r2.1;
    }
  }

  /**
   A camera has at most one intended range, so the computed range depends only on
   which tracks contribute, not on the order the loops visit them or how often.
   */
  lemma CameraRangeUnique(s: Scene, cam: NodeId, r1: Bounds, r2: Bounds)
    requires Wf(s) && cam in s.nodes
    requires IsCameraRange(s, cam, r1) && IsCameraRange(s, cam, r2)
    ensures r1 == r2
  {
    SpanUnique(s, Contributing(s, cam), r1, r2);
  }

  /** Key times run forward along a track. */
  ghost predicate TimeOrdered(keys: seq<Time>) {
    forall i, j :: 0 <= i <= j < |keys| ==> keys[i] <= keys[j]
  }

  /** With time-ordered keys on the contributing tracks, the range starts no later than it ends. */
  lemma CameraRangeOrdered(s: Scene, cam: NodeId)
    requires Wf(s) && cam in s.nodes
    requires forall k :: k in Contributing(s, cam) ==> TimeOrdered(s.tracks[k])
    ensures CameraRange(s, cam).0 <= CameraRange(s, cam).1
  {
    CameraRangeIsIntended(s, cam);
    var r := CameraRange(s, cam);
    if Contributing(s, cam) != {} {
      var a :| a in Contributing(s, cam) && First(s, a) == r.0;
      assert First(s, a) <= Last(s, a);
    }
  }
}
