/**
 The Camera to Take command: finds the cameras, works out each camera's frame range
 from its animation, optionally clears earlier render settings and takes, then adds
 one render-settings clone and one take per camera, in natural name order.
 */
module CameraToTakePlugin {
  import opened Wrappers
  import opened Sequences
  import opened NaturalOrder
  import opened StableSort
  import opened Scene
  import opened Intervals
  import opened FrameRange
  import opened Documents

  /**
   One entry of the camera data list. The render-settings and take handles are
   filled in by the two create steps.
   */
  datatype CameraData = CameraData(
    camera: NodeId, range: Bounds, takeName: string,
    renderData: Option<Handle>, takeData: Option<Handle>)

  /**
   How a run ends. `HierarchyError`: "convert all" in a document without objects,
   where the hierarchy walk yields nothing and appending the first object to it
   raises, before anything is changed.
   */
  datatype Outcome = NotRun | HierarchyError | NoCameras | Generated(summary: string)

  /** The objects searched for cameras: the whole hierarchy plus the first object again, or the selection. */
  function Objects(convertAll: bool, hierarchy: seq<NodeId>, selection: seq<NodeId>): seq<NodeId>
    requires convertAll ==> hierarchy != []
  {
    if convertAll then hierarchy + [hierarchy[0]] else selection
  }

  /** The record `buildCameraDataList` makes for one camera. */
  function RecordFor(s: Scene, cam: NodeId): CameraData
    requires Wf(s) && cam in s.nodes
  {
    CameraData(cam, CameraRange(s, cam), s.nodes[cam].name, None, None)
  }

  /** The records `buildCameraDataList` makes, one per camera in camera order. */
  function RecordsFor(s: Scene, cams: seq<NodeId>): (r: seq<CameraData>)
    requires Wf(s) && InScene(s, cams)
    ensures |r| == |cams|
  {
    if cams == [] then []
    else RecordsFor(s, cams[..|cams| - 1]) + [RecordFor(s, cams[|cams| - 1])]
  }

  lemma RecordsForStep(s: Scene, cams: seq<NodeId>, i: nat)
    requires Wf(s) && InScene(s, cams)
    requires i < |cams|
    ensures RecordsFor(s, cams[..i + 1]) == RecordsFor(s, cams[..i]) + [RecordFor(s, cams[i])]
  {
    assert cams[..i + 1][..i] == cams[..i];
  }

  lemma {:induction false} RecordsForAt(s: Scene, cams: seq<NodeId>, i: nat)
    requires Wf(s) && InScene(s, cams)
    requires i < |cams|
    ensures RecordsFor(s, cams)[i] == RecordFor(s, cams[i])
  {
    if i < |cams| - 1 {
      var front := cams[..|cams| - 1];
      RecordsForAt(s, front, i);
      assert front[i] == cams[i];
    }
  }

  /**
   One record per camera, in camera order, named after the camera, with the
   camera's intended frame range and no render settings or take yet.
   */
  lemma RecordsForCameras(s: Scene, cams: seq<NodeId>)
    requires Wf(s) && InScene(s, cams)
    ensures |RecordsFor(s, cams)| == |cams|
    ensures forall i :: 0 <= i < |cams| ==>
              && RecordsFor(s, cams)[i].camera == cams[i]
              && RecordsFor(s, cams)[i].takeName == s.nodes[cams[i]].name
              && IsCameraRange(s, cams[i], RecordsFor(s, cams)[i].range)
              && RecordsFor(s, cams)[i].renderData.None?
              && RecordsFor(s, cams)[i].takeData.None?
  {
    var r := RecordsFor(s, cams);
    forall i | 0 <= i < |cams|
      ensures && r[i].camera == cams[i] && r[i].takeName == s.nodes[cams[i]].name
              && IsCameraRange(s, cams[i], r[i].range)
              && r[i].renderData.None? && r[i].takeData.None?
    {
      RecordsForAt(s, cams, i);
      CameraRangeIsIntended(s, cams[i]);
    }
  }

  /** The clone of `template` that `createRenderData` makes for `rec`, with handle `h`. */
  function Configured(template: RenderData, h: Handle, rec: CameraData): RenderData {
    template.(handle := h, name := rec.takeName, frameSequence := MANUAL_RANGE,
              frameFrom := rec.range.0, frameTo := rec.range.1)
  }

  /** The clones for `recs`, in record order, with handles from `h0` on. */
  function ClonesFor(template: RenderData, recs: seq<CameraData>, h0: Handle): seq<RenderData> {
    if recs == [] then []
    else
      var n := |recs|;
      ClonesFor(template, recs[..n - 1], h0) + [Configured(template, h0 + n - 1, recs[n - 1])]
  }

  /**
   One clone per record, in record order: a fresh handle each, the take's name,
   manual frame sequence, the record's range as from/to, all other settings those
   of the template.
   */
  lemma {:induction false} ClonesForRecords(template: RenderData, recs: seq<CameraData>, h0: Handle)
    ensures |ClonesFor(template, recs, h0)| == |recs|
    ensures forall i :: 0 <= i < |recs| ==>
              var c := ClonesFor(template, recs, h0)[i];
              && c.handle == h0 + i
              && c.name == recs[i].takeName
              && c.frameSequence == MANUAL_RANGE
              && c.frameFrom == recs[i].range.0 && c.frameTo == recs[i].range.1
              && c.settings == template.settings
  {
    if recs != [] {
      var n := |recs|;
      ClonesForRecords(template, recs[..n - 1], h0);
    }
  }

  /** The records once `createRenderData` has stored the clone handles. */
  function WithRenderData(recs: seq<CameraData>, h0: Handle): seq<CameraData> {
    seq(|recs|, i requires 0 <= i < |recs| => recs[i].(renderData := Some(h0 + i)))
  }

  lemma ClonesForStep(template: RenderData, recs: seq<CameraData>, i: nat, h0: Handle)
    requires i < |recs|
    ensures ClonesFor(template, recs[..i + 1], h0)
            == ClonesFor(template, recs[..i], h0) + [Configured(template, h0 + i, recs[i])]
  {
    assert recs[..i + 1][..i] == recs[..i];
  }

  lemma WithRenderDataStep(recs: seq<CameraData>, i: nat, h0: Handle)
    requires i < |recs|
    ensures (WithRenderData(recs[..i], h0) + recs[i..])[i := recs[i].(renderData := Some(h0 + i))]
            == WithRenderData(recs[..i + 1], h0) + recs[i + 1..]
  {
  }

  /** The take `createTakeData` adds for `rec`: added with `anchor` as clone source, then renamed and bound. */
  function NewTake(rec: CameraData, anchor: Option<Handle>, h: Handle): Take {
    Take(h, rec.takeName, Some(rec.camera), rec.renderData, anchor)
  }

  /**
   The takes added for `recs`, top to bottom. The last record is added first and
   gets `h0`; every later addition goes in front of the earlier ones.
   */
  function TakesFor(recs: seq<CameraData>, anchor: Option<Handle>, h0: Handle): seq<Take> {
    if recs == [] then []
    else [NewTake(recs[0], anchor, h0 + |recs| - 1)] + TakesFor(recs[1..], anchor, h0)
  }

  /**
   Adding in reverse at the front leaves one take per record in record order, each
   named after its record and bound to its camera and render settings.
   */
  lemma {:induction false} TakesInRecordOrder(recs: seq<CameraData>, anchor: Option<Handle>, h0: Handle)
    ensures |TakesFor(recs, anchor, h0)| == |recs|
    ensures forall k :: 0 <= k < |recs| ==>
              var t := TakesFor(recs, anchor, h0)[k];
              && t.handle == h0 + |recs| - 1 - k
              && t.name == recs[k].takeName
              && t.camera == Some(recs[k].camera)
              && t.renderData == recs[k].renderData
              && t.cloneOf == anchor
  {
    if recs != [] {
      TakesInRecordOrder(recs[1..], anchor, h0);
    }
  }

  lemma TakesForStep(recs: seq<CameraData>, i: nat, anchor: Option<Handle>, h0: Handle)
    requires i < |recs|
    ensures TakesFor(recs[i..], anchor, h0)
            == [NewTake(recs[i], anchor, h0 + |recs| - 1 - i)] + TakesFor(recs[i + 1..], anchor, h0)
  {
    assert recs[i..][1..] == recs[i + 1..];
  }

  /** The records once `createTakeData` has stored the take handles. */
  function WithTakeData(recs: seq<CameraData>, h0: Handle): seq<CameraData> {
    seq(|recs|, i requires 0 <= i < |recs| => recs[i].(takeData := Some(h0 + |recs| - 1 - i)))
  }

  /** The records once the takes for `recs[from..]` were added, the last record's take first. */
  function TakeDataFrom(recs: seq<CameraData>, from: nat, h0: Handle): (r: seq<CameraData>)
    ensures |r| == |recs|
  {
    seq(|recs|, j requires 0 <= j < |recs| =>
      if j >= from then recs[j].(takeData := Some(h0 + |recs| - 1 - j)) else recs[j])
  }

  /** Adding the take for record `i` extends the stored handles down to `i`. */
  lemma TakeDataFromStep(recs: seq<CameraData>, i: nat, h0: Handle)
    requires i < |recs|
    ensures TakeDataFrom(recs, i + 1, h0)[i] == recs[i]
    ensures TakeDataFrom(recs, i + 1, h0)[i := recs[i].(takeData := Some(h0 + |recs| - 1 - i))]
            == TakeDataFrom(recs, i, h0)
  {
  }

  /**
   The records after a run whose clones get handles from `h0` on: each holds its
   clone's handle, then its take's handle, the takes numbered after the clones.
   */
  function GeneratedRecords(recs: seq<CameraData>, h0: Handle): seq<CameraData> {
    WithTakeData(WithRenderData(recs, h0), h0 + |recs|)
  }

  /** The takes a run adds in front of the main take's children, `anchor` their clone source. */
  function GeneratedTakes(recs: seq<CameraData>, anchor: Option<Handle>, h0: Handle): seq<Take> {
    TakesFor(WithRenderData(recs, h0), anchor, h0 + |recs|)
  }

  /**
   After a run, take `k` and record `k` agree: the take is named after the camera,
   views it, uses the clone made for that camera, and its handle is the one stored
   in the record. No two takes share a handle with each other or with a clone.
   */
  lemma GeneratedTakesMatchRecords(recs: seq<CameraData>, anchor: Option<Handle>, h0: Handle)
    ensures |GeneratedTakes(recs, anchor, h0)| == |GeneratedRecords(recs, h0)| == |recs|
    ensures forall k :: 0 <= k < |recs| ==>
              var t, r := GeneratedTakes(recs, anchor, h0)[k], GeneratedRecords(recs, h0)[k];
              && t.name == recs[k].takeName && r.takeName == recs[k].takeName
              && t.camera == Some(recs[k].camera) && r.camera == recs[k].camera
              && t.renderData == Some(h0 + k) && r.renderData == Some(h0 + k)
              && r.takeData == Some(t.handle)
              && t.handle == h0 + 2 * |recs| - 1 - k
  {
    TakesInRecordOrder(WithRenderData(recs, h0), anchor, h0 + |recs|);
  }

  /** `child_take`: the main take's first child, if any. */
  function FirstChild(takes: seq<Take>): Option<Handle> {
    if takes == [] then None else Some(takes[0].handle)
  }

  /**
   Earlier render settings or takes are cleared when there is a render-settings entry
   besides the default, or any take under the main take, and the user confirms.
   */
  function Clears(renderData: seq<RenderData>, takes: seq<Take>, confirmClear: bool): bool {
    (|renderData| > 1 || takes != []) && confirmClear
  }

  /** `prettyStats`: the summary shown at the end. */
  function PrettyStats(nTakes: nat): (s: string)
    ensures |s| > 23 && s[..23] == "Successfully Generated "
    ensures s[|s| - 1] == 's' <==> nTakes != 1
  {
    "Successfully Generated " + Decimal(nTakes) + " Take" + (if nTakes == 1 then "" else "s")
  }

  /**
   Reading the summary back with the natural key recovers the count, and the word
   after it is "Take" exactly when the count is 1.
   */
  lemma PrettyStatsCount(nTakes: nat)
    ensures NaturalKeys(PrettyStats(nTakes))
            == [Text("Successfully Generated "), Num(nTakes), Text(if nTakes == 1 then " Take" else " Takes")]
  {
    var p, d, q := "Successfully Generated ", Decimal(nTakes), if nTakes == 1 then " Take" else " Takes";
    assert PrettyStats(nTakes) == p + d + q;
    assert NoDigits(p) && NoDigits(q);
    NumberedNameKey(p, d, q);
  }

  lemma PrettyStatsExamples()
    ensures PrettyStats(1) == "Successfully Generated 1 Take"
    ensures PrettyStats(0) == "Successfully Generated 0 Takes"
    ensures PrettyStats(12) == "Successfully Generated 12 Takes"
  {
    assert Decimal(12) == Decimal(1) + [DigitChar(2)];
  }

  /**
   "Convert all" searches the first object twice, so a camera that is the first
   object is found twice and gets two takes.
   */
  lemma FirstObjectTwice(s: Scene, hierarchy: seq<NodeId>)
    requires hierarchy != [] && InScene(s, hierarchy)
    requires IsCamera(s, hierarchy[0])
    ensures multiset(SortBy(CamerasIn(s, Objects(true, hierarchy, [])), NameKey(s)))[hierarchy[0]] >= 2
  {
    var first := hierarchy[0];
    var objects := Objects(true, hierarchy, []);
    assert hierarchy == [first] + hierarchy[1..];
    assert multiset(objects) == multiset{first} + multiset(hierarchy[1..]) + multiset{first};
    CamerasInSpec(s, objects);
    SortByCorrect(CamerasIn(s, objects), NameKey(s));
  }

  /**
   `filterCameras`: the camera-type objects, duplicates kept, stably sorted by the
   natural key of their names.
   */
  method FilterCameras(s: Scene, objects: seq<NodeId>) returns (found: seq<NodeId>)
    requires InScene(s, objects)
    ensures found == SortBy(CamerasIn(s, objects), NameKey(s))
    ensures AllCameras(s, found)
  {
    var cams: seq<NodeId> := [];
    for i := 0 to |objects|
      invariant cams == CamerasIn(s, objects[..i])
    {
      assert objects[..i + 1][..i] == objects[..i];
      if IsCamera(s, objects[i]) {
        cams := cams + [objects[i]];
      }
    }
    assert objects[..|objects|] == objects;
    found := SortBy(cams, NameKey(s));
    CamerasInSpec(s, objects);
    forall x | x in found
      ensures x in s.nodes && IsCamera(s, x)
    {
      SortByMembers(cams, NameKey(s), x);
    }
  }

  class CameraToTake {
    const doc: Document
    const cameras: seq<NodeId>
    var cameraDataList: seq<CameraData>
    /** The running interval and its contribution counter. */
    var min: Time
    var max: Time
    var count: nat
    /** The (first, last) key times reported since the last reset, in order. */
    ghost var seen: seq<Bounds>
    /** The records as `buildCameraDataList` built them, before any handle was stored in them. */
    ghost var records: seq<CameraData>
    var outcome: Outcome

    /** The running interval is the fold of what was reported since the reset. */
    ghost predicate RangeValid()
      reads this
    {
      Interval(min, max, count) == Fold(seen)
    }

    /**
     `__init__`. The two dialog answers are inputs, as are the hierarchy walk from the
     first object (first object first) and the selection.
     */
    constructor(doc: Document, convertAll: bool, hierarchy: seq<NodeId>, selection: seq<NodeId>,
                confirmClear: bool)
      requires doc.Valid()
      requires InScene(doc.scene, hierarchy)
      requires InScene(doc.scene, selection)
      modifies doc
      ensures this.doc == doc && doc.Valid()
      ensures convertAll && hierarchy == [] ==>
                outcome == HierarchyError
                && doc.renderData == old(doc.renderData) && doc.takes == old(doc.takes)
                && doc.nextHandle == old(doc.nextHandle)
      ensures !(convertAll && hierarchy == []) ==>
                cameras == SortBy(CamerasIn(doc.scene, Objects(convertAll, hierarchy, selection)), NameKey(doc.scene))
      ensures AllCameras(doc.scene, cameras)
      ensures !(convertAll && hierarchy == []) && cameras == [] ==>
                outcome == NoCameras
                && doc.renderData == old(doc.renderData) && doc.takes == old(doc.takes)
                && doc.nextHandle == old(doc.nextHandle)
      ensures !(convertAll && hierarchy == []) && cameras != [] ==>
                && records == RecordsFor(doc.scene, cameras)
                && cameraDataList == GeneratedRecords(records, old(doc.nextHandle))
                && outcome == Generated(PrettyStats(|records|))
      ensures !(convertAll && hierarchy == []) && cameras != [] && Clears(old(doc.renderData), old(doc.takes), confirmClear) ==>
                && doc.renderData == [old(doc.renderData)[0]] + ClonesFor(old(doc.renderData)[0], records, old(doc.nextHandle))
                && doc.takes == GeneratedTakes(records, None, old(doc.nextHandle))
      ensures !(convertAll && hierarchy == []) && cameras != [] && !Clears(old(doc.renderData), old(doc.takes), confirmClear) ==>
                && doc.renderData == old(doc.renderData) + ClonesFor(old(doc.renderData)[0], records, old(doc.nextHandle))
                && doc.takes == GeneratedTakes(records, FirstChild(old(doc.takes)), old(doc.nextHandle)) + old(doc.takes)
    {
      this.doc := doc;
      var found := [];
      if !(convertAll && hierarchy == []) {
        found := FilterCameras(doc.scene, Objects(convertAll, hierarchy, selection));
      }
      cameras := found;
      cameraDataList := [];
      min, max, count := 0, 0, 0;
      seen := [];
      records := [];
      outcome := NotRun;
      new;
      if convertAll && hierarchy == [] {
        outcome := HierarchyError;
      } else if found == [] {
        outcome := NoCameras;
      } else {
        Convert(confirmClear);
      }
    }

    /**
     The rest of `__init__` once cameras were found: `buildCameraDataList`, the
     optional clearing, `createRenderData`, `createTakeData` and the summary.
     */
    method Convert(confirmClear: bool)
      requires doc.Valid() && InScene(doc.scene, cameras)
      modifies doc, this`cameraDataList, this`min, this`max, this`count, this`seen, this`records, this`outcome
      ensures doc.Valid()
      ensures records == RecordsFor(doc.scene, cameras)
      ensures cameraDataList == GeneratedRecords(records, old(doc.nextHandle))
      ensures outcome == Generated(PrettyStats(|records|))
      ensures Clears(old(doc.renderData), old(doc.takes), confirmClear) ==>
                && doc.renderData == [old(doc.renderData)[0]] + ClonesFor(old(doc.renderData)[0], records, old(doc.nextHandle))
                && doc.takes == GeneratedTakes(records, None, old(doc.nextHandle))
      ensures !Clears(old(doc.renderData), old(doc.takes), confirmClear) ==>
                && doc.renderData == old(doc.renderData) + ClonesFor(old(doc.renderData)[0], records, old(doc.nextHandle))
                && doc.takes == GeneratedTakes(records, FirstChild(old(doc.takes)), old(doc.nextHandle)) + old(doc.takes)
    {
      BuildCameraDataList();
      records := cameraDataList;
      Generate(confirmClear);
    }

    /**
     The part of `__init__` after the records were built: clear earlier render settings
     and takes when there are any and the user confirms, create the render settings and
     the takes from the records, and report the summary.
     */
    method Generate(confirmClear: bool)
      requires doc.Valid()
      modifies doc, this`cameraDataList, this`outcome
      ensures doc.Valid()
      ensures Clears(old(doc.renderData), old(doc.takes), confirmClear) ==>
                && doc.renderData == [old(doc.renderData)[0]]
                     + ClonesFor(old(doc.renderData)[0], old(cameraDataList), old(doc.nextHandle))
                && doc.takes == GeneratedTakes(old(cameraDataList), None, old(doc.nextHandle))
      ensures !Clears(old(doc.renderData), old(doc.takes), confirmClear) ==>
                && doc.renderData == old(doc.renderData)
                     + ClonesFor(old(doc.renderData)[0], old(cameraDataList), old(doc.nextHandle))
                && doc.takes == GeneratedTakes(old(cameraDataList), FirstChild(old(doc.takes)), old(doc.nextHandle))
                     + old(doc.takes)
      ensures cameraDataList == GeneratedRecords(old(cameraDataList), old(doc.nextHandle))
      ensures outcome == Generated(PrettyStats(|old(cameraDataList)|))
    {
      ghost var rd0, tk0 := doc.renderData, doc.takes;
      ghost var cleared := Clears(rd0, tk0, confirmClear);
      var rds := GetAllRenderData();
      var tds := GetAllTakeData();
      if (rds != [] || tds != []) && confirmClear {
        DeleteAllRenderData();
        DeleteAllTakes();
      }
      assert cleared ==> doc.renderData == [rd0[0]] && doc.takes == [];
      assert !cleared ==> doc.renderData == rd0 && doc.takes == tk0;
      CreateRenderData();
      CreateTakeData();
      outcome := Generated(PrettyStats(|cameraDataList|));
    }

    /** `resetMinMax`. */
    method ResetMinMax()
      modifies this`min, this`max, this`count, this`seen
      ensures min == 0 && max == 0 && count == 0
      ensures seen == [] && RangeValid()
    {
      min, max, count := 0, 0, 0;
      seen := [];
    }

    /** `updateMinMax`: one more contribution to the running interval. */
    method UpdateMinMax(lo: Time, hi: Time)
      requires RangeValid()
      modifies this`min, this`max, this`count, this`seen
      ensures Interval(min, max, count) == Update(old(Interval(min, max, count)), (lo, hi))
      ensures seen == old(seen) + [(lo, hi)] && RangeValid()
    {
      if lo < min || count == 0 {
        min := lo;
      }
      if hi > max || count == 0 {
        max := hi;
      }
      count := count + 1;
      seen := seen + [(lo, hi)];
      assert seen[..|seen| - 1] == old(seen);
    }

    /** `getTrackRange`: a missing track reports nothing; a present one its first and last key times. */
    method GetTrackRange(owner: Owner, param: Param) returns (r: Option<Bounds>)
      requires Wf(doc.scene) && RangeValid()
      modifies this`min, this`max, this`count, this`seen
      ensures TrackKey(owner, param) !in doc.scene.tracks ==> r == None
      ensures TrackKey(owner, param) in doc.scene.tracks ==> r == Some(TrackBounds(doc.scene, TrackKey(owner, param)))
      ensures seen == old(seen) + (if r.Some? then [r.value] else []) && RangeValid()
    {
      var key := TrackKey(owner, param);
      if key !in doc.scene.tracks {
        return None;
      }
      var keys := doc.scene.tracks[key];
      var lo := keys[0];
      var hi := keys[|keys| - 1];
      UpdateMinMax(lo, hi);
      r := Some((lo, hi));
    }

    /** `iterateTrackIDs`: every present track of `owner` among `params` contributes, in order. */
    method IterateTrackIDs(owner: Owner, params: seq<Param>)
      requires Wf(doc.scene) && RangeValid()
      modifies this`min, this`max, this`count, this`seen
      ensures seen == old(seen) + BoundsOf(doc.scene, Present(doc.scene, owner, params)) && RangeValid()
    {
      var s := doc.scene;
      for i := 0 to |params|
        invariant seen == old(seen) + BoundsOf(s, Present(s, owner, params[..i])) && RangeValid()
      {
        ghost var prev := seen;
        var r := GetTrackRange(owner, params[i]);
        PresentStep(s, owner, params, i);
        ghost var step := if r.Some? then [r.value] else [];
        assert seen == prev + step;
        assert BoundsOf(s, Present(s, owner, params[..i + 1])) == BoundsOf(s, Present(s, owner, params[..i])) + step;
      }
      assert params[..|params|] == params;
    }

    /** `frameRangeFromObject`: the object's position, rotation and scale tracks contribute. */
    method FrameRangeFromObject(obj: NodeId)
      requires Wf(doc.scene) && RangeValid()
      modifies this`min, this`max, this`count, this`seen
      ensures seen == old(seen) + BoundsOf(doc.scene, ObjectKeys(doc.scene, obj)) && RangeValid()
    {
      IterateTrackIDs(ObjectTracks(obj), TRANSFORM_PARAMS);
    }

    /**
     `frameRangeFromTags`: the align-to-spline tag's tracks, then the transform tracks
     of the target tag's target and up-vector objects.
     */
    method FrameRangeFromTags(obj: NodeId)
      requires Wf(doc.scene) && obj in doc.scene.nodes && RangeValid()
      modifies this`min, this`max, this`count, this`seen
      ensures seen == old(seen) + BoundsOf(doc.scene, TagKeys(doc.scene, obj)) && RangeValid()
    {
      var s := doc.scene;
      var alignToSpline := FirstTag(s.nodes[obj].tags, ALIGN_TO_SPLINE_TAG);
      var target := FirstTag(s.nodes[obj].tags, TARGET_TAG);
      if alignToSpline.Some? {
        IterateTrackIDs(TagTracks(alignToSpline.value.id), SPLINE_PARAMS);
      }
      ghost var afterSpline := seen;
      assert afterSpline == old(seen) + BoundsOf(s, SplineKeys(s, obj));
      if target.Some? {
        var targetObject := target.value.link;
        var upVector := target.value.upLink;
        if targetObject.Some? {
          FrameRangeFromObject(targetObject.value);
        }
        ghost var afterTarget := seen;
        ghost var linked := BoundsOf(s, LinkKeys(s, targetObject));
        assert afterTarget == afterSpline + linked;
        if upVector.Some? {
          FrameRangeFromObject(upVector.value);
        }
        ghost var up := BoundsOf(s, LinkKeys(s, upVector));
        assert seen == afterTarget + up;
        assert seen == afterSpline + BoundsOf(s, TargetKeys(s, obj)) by {
          BoundsOfAppend(s, LinkKeys(s, targetObject), LinkKeys(s, upVector));
          AppendAssociative(afterSpline, linked, up);
        }
      } else {
        assert TargetKeys(s, obj) == [];
        assert seen == afterSpline + [];
      }
      ghost var spline, targets := BoundsOf(s, SplineKeys(s, obj)), BoundsOf(s, TargetKeys(s, obj));
      assert seen == old(seen) + BoundsOf(s, TagKeys(s, obj)) by {
        BoundsOfAppend(s, SplineKeys(s, obj), TargetKeys(s, obj));
        AppendAssociative(old(seen), spline, targets);
      }
    }

    /**
     `frameRangeFromCamera`: resets the interval, then lets the parents (nearest first)
     and the camera itself contribute, each with its own tracks and then its tags'.
     The result is the camera's intended frame range.
     */
    method FrameRangeFromCamera(camera: NodeId) returns (start: Time, end: Time)
      requires Wf(doc.scene) && camera in doc.scene.nodes
      modifies this`min, this`max, this`count, this`seen
      ensures (start, end) == CameraRange(doc.scene, camera)
      ensures IsCameraRange(doc.scene, camera, (start, end))
    {
      var s := doc.scene;
      var objects := GetParents(s, camera);
      objects := objects + [camera];
      assert objects == Chain(s, camera);
      ResetMinMax();
      for i := 0 to |objects|
        invariant RangeValid()
        invariant seen == BoundsOf(s, ChainKeys(s, objects[..i]))
      {
        var obj := objects[i];
        FrameRangeFromObject(obj);
        FrameRangeFromTags(obj);
        ChainBoundsStep(s, objects, i);
      }
      assert objects[..|objects|] == objects;
      start, end := min, max;
      CameraRangeIsIntended(s, camera);
    }

    /** `buildCameraDataList`: one record per camera, in camera order. */
    method BuildCameraDataList()
      requires Wf(doc.scene) && InScene(doc.scene, cameras)
      modifies this`cameraDataList, this`min, this`max, this`count, this`seen
      ensures cameraDataList == RecordsFor(doc.scene, cameras)
    {
      var s := doc.scene;
      cameraDataList := [];
      for i := 0 to |cameras|
        invariant cameraDataList == RecordsFor(s, cameras[..i])
      {
        var camera := cameras[i];
        var start, end := FrameRangeFromCamera(camera);
        RecordsForStep(s, cameras, i);
        cameraDataList := cameraDataList + [CameraData(camera, (start, end), s.nodes[camera].name, None, None)];
      }
      assert cameras[..|cameras|] == cameras;
    }

    /** `getAllRenderData`: every render-settings entry after the default one, in list order. */
    method GetAllRenderData() returns (rds: seq<RenderData>)
      requires doc.Valid()
      ensures rds == doc.renderData[1..]
    {
      rds := [];
      var i := 1;
      while i < |doc.renderData|
        invariant 1 <= i <= |doc.renderData|
        invariant rds == doc.renderData[1..i]
      {
        rds := rds + [doc.renderData[i]];
        i := i + 1;
      }
    }

    /** `deleteAllRenderData`: removes every entry but the default one. */
    method DeleteAllRenderData()
      requires doc.Valid()
      modifies doc
      ensures doc.Valid()
      ensures doc.renderData == [old(doc.renderData)[0]]
      ensures doc.takes == old(doc.takes) && doc.nextHandle == old(doc.nextHandle)
    {
      var rds := GetAllRenderData();
      ghost var first := doc.renderData[0];
      assert doc.renderData == [first] + rds[0..];
      for i := 0 to |rds|
        invariant doc.renderData == [first] + rds[i..]
        invariant Consistent(doc.renderData, doc.takes, doc.nextHandle)
        invariant doc.takes == old(doc.takes) && doc.nextHandle == old(doc.nextHandle)
      {
        var current := doc.renderData;
        RemoveRenderDataConsistent(current, doc.takes, doc.nextHandle, 1);
        assert current[1] == rds[i];
        assert current[..1] + current[2..] == [first] + rds[i + 1..];
        doc.renderData := Without(current, RenderDataHandle, rds[i].handle);
      }
    }

    /** `getAllTakeData`: the main take's children, top to bottom. */
    method GetAllTakeData() returns (tds: seq<Take>)
      requires doc.Valid()
      ensures tds == doc.takes
    {
      tds := [];
      var i := 0;
      while i < |doc.takes|
        invariant 0 <= i <= |doc.takes|
        invariant tds == doc.takes[..i]
      {
        tds := tds + [doc.takes[i]];
        i := i + 1;
      }
      assert doc.takes[..i] == doc.takes;
    }

    /** `deleteAllTakes`: removes every child of the main take. */
    method DeleteAllTakes()
      requires doc.Valid()
      modifies doc
      ensures doc.Valid()
      ensures doc.takes == []
      ensures doc.renderData == old(doc.renderData) && doc.nextHandle == old(doc.nextHandle)
    {
      var tds := GetAllTakeData();
      for i := 0 to |tds|
        invariant doc.takes == tds[i..]
        invariant Consistent(doc.renderData, doc.takes, doc.nextHandle)
        invariant doc.renderData == old(doc.renderData) && doc.nextHandle == old(doc.nextHandle)
      {
        var current := doc.takes;
        RemoveFirstTakeConsistent(doc.renderData, current, doc.nextHandle);
        assert current[0] == tds[i] && current[1..] == tds[i + 1..];
        doc.takes := Without(current, TakeHandle, tds[i].handle);
      }
    }

    /**
     `createRenderData`: for each record in order, clones the default render settings,
     appends the clone, configures it from the record and stores its handle there.
     */
    method CreateRenderData()
      requires doc.Valid()
      modifies doc, this`cameraDataList
      ensures doc.Valid()
      ensures doc.renderData == old(doc.renderData)
                + ClonesFor(old(doc.renderData)[0], old(cameraDataList), old(doc.nextHandle))
      ensures doc.nextHandle == old(doc.nextHandle) + |old(cameraDataList)|
      ensures cameraDataList == WithRenderData(old(cameraDataList), old(doc.nextHandle))
      ensures doc.takes == old(doc.takes)
    {
      var template := doc.renderData[0];
      ghost var recs := cameraDataList;
      ghost var before := doc.renderData;
      ghost var h0 := doc.nextHandle;
      for i := 0 to |cameraDataList|
        invariant |cameraDataList| == |recs|
        invariant cameraDataList == WithRenderData(recs[..i], h0) + recs[i..]
        invariant doc.renderData == before + ClonesFor(template, recs[..i], h0)
        invariant doc.nextHandle == h0 + i
        invariant Consistent(doc.renderData, doc.takes, doc.nextHandle)
        invariant doc.takes == old(doc.takes)
      {
        ClonesForStep(template, recs, i, h0);
        AppendAssociative(before, ClonesFor(template, recs[..i], h0), [Configured(template, h0 + i, recs[i])]);
        WithRenderDataStep(recs, i, h0);
        AddRenderDataFor(i, template);
      }
      assert recs[..|recs|] == recs && recs[|recs|..] == [];
    }

    /**
     One pass of the `createRenderData` loop: clones `template`, appends the clone,
     configures it from record `i` and stores its handle in the record.
     */
    method AddRenderDataFor(i: nat, template: RenderData)
      requires doc.Valid() && i < |cameraDataList|
      modifies doc, this`cameraDataList
      ensures doc.Valid()
      ensures doc.renderData == old(doc.renderData) + [Configured(template, old(doc.nextHandle), old(cameraDataList[i]))]
      ensures doc.nextHandle == old(doc.nextHandle) + 1
      ensures cameraDataList == old(cameraDataList)[i := old(cameraDataList[i]).(renderData := Some(old(doc.nextHandle)))]
      ensures doc.takes == old(doc.takes)
    {
      var renderData := template.(handle := doc.nextHandle);
      var data := cameraDataList[i];
      renderData := renderData.(name := data.takeName, frameSequence := MANUAL_RANGE,
                                frameFrom := data.range.0, frameTo := data.range.1);
      AppendRenderDataConsistent(doc.renderData, doc.takes, doc.nextHandle, renderData);
      doc.nextHandle := doc.nextHandle + 1;
      doc.renderData := doc.renderData + [renderData];
      cameraDataList := cameraDataList[i := data.(renderData := Some(renderData.handle))];
    }

    /**
     `createTakeData`: captures the main take's first child once, then for each record
     from the last to the first adds a take in front of the main take's children,
     cloned from that child, and names and binds it from the record.
     */
    method CreateTakeData()
      requires doc.Valid()
      modifies doc, this`cameraDataList
      ensures doc.Valid()
      ensures doc.takes == TakesFor(old(cameraDataList), FirstChild(old(doc.takes)), old(doc.nextHandle))
                           + old(doc.takes)
      ensures doc.nextHandle == old(doc.nextHandle) + |old(cameraDataList)|
      ensures cameraDataList == WithTakeData(old(cameraDataList), old(doc.nextHandle))
      ensures doc.renderData == old(doc.renderData)
    {
      var childTake := FirstChild(doc.takes);
      ghost var recs := cameraDataList;
      ghost var before := doc.takes;
      ghost var h0 := doc.nextHandle;
      var n := |cameraDataList|;
      var i := n;
      while i > 0
        invariant 0 <= i <= n == |recs| == |cameraDataList|
        invariant cameraDataList == TakeDataFrom(recs, i, h0)
        invariant doc.takes == TakesFor(recs[i..], childTake, h0) + before
        invariant doc.nextHandle == h0 + (n - i)
        invariant Consistent(doc.renderData, doc.takes, doc.nextHandle)
        invariant doc.renderData == old(doc.renderData)
      {
        i := i - 1;
        var h := doc.nextHandle;
        ghost var later := TakesFor(recs[i + 1..], childTake, h0);
        assert h == h0 + |recs| - 1 - i;
        TakeDataFromStep(recs, i, h0);
        TakesForStep(recs, i, childTake, h0);
        AppendAssociative([NewTake(recs[i], childTake, h)], later, before);
        AddTakeFor(i, childTake);
      }
      assert WithTakeData(recs, h0) == TakeDataFrom(recs, 0, h0);
      assert recs[0..] == recs;
    }

    /**
     One pass of the `createTakeData` loop: adds a take for record `i` in front of the
     main take's children, cloned from `childTake`, names and binds it from the
     record, and stores its handle in the record.
     */
    method AddTakeFor(i: nat, childTake: Option<Handle>)
      requires doc.Valid() && i < |cameraDataList|
      modifies doc, this`cameraDataList
      ensures doc.Valid()
      ensures doc.takes == [NewTake(old(cameraDataList[i]), childTake, old(doc.nextHandle))] + old(doc.takes)
      ensures doc.nextHandle == old(doc.nextHandle) + 1
      ensures cameraDataList == old(cameraDataList)[i := old(cameraDataList[i]).(takeData := Some(old(doc.nextHandle)))]
      ensures doc.renderData == old(doc.renderData)
    {
      var data := cameraDataList[i];
      var take := Take(doc.nextHandle, "", None, None, childTake);
      take := take.(name := data.takeName, camera := Some(data.camera), renderData := data.renderData);
      PrependTakeConsistent(doc.renderData, doc.takes, doc.nextHandle, take);
      doc.nextHandle := doc.nextHandle + 1;
      doc.takes := [take] + doc.takes;
      cameraDataList := cameraDataList[i := data.(takeData := Some(take.handle))];
    }
  }
}
