/**
 The part of the host document the plugin rebuilds: the render-settings list, whose
 first entry is the default, and the list of takes directly under the main take.
 Host objects are told apart by handles; `nextHandle` is the next one the host hands out.
 */
module Documents {
  import opened Wrappers
  import opened Scene

  type Handle = nat

  /** `RDATA_FRAMESEQUENCE` value 0: render the manual frame range. */
  const MANUAL_RANGE: int := 0

  /**
   A render-settings entry: its name, frame-sequence mode and manual frame range,
   and every other setting (copied unchanged by a clone).
   */
  datatype RenderData = RenderData(
    handle: Handle, name: string, frameSequence: int,
    frameFrom: Time, frameTo: Time, settings: seq<int>)

  /**
   A take under the main take: its name, its camera and render-settings overrides,
   and the take its overrides were cloned from when it was added.
   */
  datatype Take = Take(
    handle: Handle, name: string, camera: Option<NodeId>,
    renderData: Option<Handle>, cloneOf: Option<Handle>)

  function RenderDataHandle(r: RenderData): Handle {
    r.handle
  }

  function TakeHandle(t: Take): Handle {
    t.handle
  }

  /** No two entries share a handle: each is a distinct host object. */
  ghost predicate Distinct<T>(s: seq<T>, handle: T -> Handle) {
    forall i, j :: 0 <= i < j < |s| ==> handle(s[i]) != handle(s[j])
  }

  /** Every handle in `s` was already handed out. */
  ghost predicate Below<T>(s: seq<T>, handle: T -> Handle, bound: Handle) {
    forall i :: 0 <= i < |s| ==> handle(s[i]) < bound
  }

  /** `Remove()` of the object with handle `h`: the list without it. */
  function Without<T(!new)>(s: seq<T>, handle: T -> Handle, h: Handle): (r: seq<T>)
    ensures |r| <= |s| && forall j :: 0 <= j < |r| ==> handle(r[j]) != h
  {
    if s == [] then []
    else (if handle(s[0]) == h then [] else [s[0]]) + Without(s[1..], handle, h)
  }

  /** Removing an object that is in the list takes out exactly that entry, in place. */
  lemma {:induction false} WithoutAt<T(!new)>(s: seq<T>, handle: T -> Handle, i: nat)
    requires i < |s| && Distinct(s, handle)
    ensures Without(s, handle, handle(s[i])) == s[..i] + s[i + 1..]
  {
    var h, t := handle(s[i]), s[1..];
    assert s == [s[0]] + t;
    if i == 0 {
      assert forall j :: 0 <= j < |t| ==> handle(t[j]) == handle(s[j + 1]);
      WithoutAbsent(t, handle, h);
    } else {
      assert handle(s[0]) != h;
      assert Without(s, handle, h) == [s[0]] + Without(t, handle, h);
      assert Distinct(t, handle) by {
        forall a, b | 0 <= a < b < |t|
          ensures handle(t[a]) != handle(t[b])
        {
          assert t[a] == s[a + 1] && t[b] == s[b + 1];
        }
      }
      assert t[i - 1] == s[i];
      WithoutAt(t, handle, i - 1);
      assert t[..i - 1] == s[1..i] && t[i..] == s[i + 1..];
      assert s[..i] == [s[0]] + s[1..i];
    }
  }

  /** Removing an object that is not in the list changes nothing. */
  lemma {:induction false} WithoutAbsent<T(!new)>(s: seq<T>, handle: T -> Handle, h: Handle)
    requires forall i :: 0 <= i < |s| ==> handle(s[i]) != h
    ensures Without(s, handle, h) == s
  {
    if s != [] {
      WithoutAbsent(s[1..], handle, h);
      assert [s[0]] + s[1..] == s;
    }
  }

  /** Dropping one entry keeps the handles distinct and handed out. */
  lemma DropKeepsDistinct<T>(s: seq<T>, handle: T -> Handle, i: nat, bound: Handle)
    requires i < |s| && Distinct(s, handle) && Below(s, handle, bound)
    ensures Distinct(s[..i] + s[i + 1..], handle) && Below(s[..i] + s[i + 1..], handle, bound)
  {
    var r := s[..i] + s[i + 1..];
    assert forall a :: 0 <= a < |r| ==> r[a] == if a < i then s[a] else s[a + 1];
  }

  /** A new object gets the next handle: adding it at the end keeps handles distinct and handed out. */
  lemma AppendFresh<T>(s: seq<T>, handle: T -> Handle, x: T, bound: Handle)
    requires Distinct(s, handle) && Below(s, handle, bound) && handle(x) == bound
    ensures Distinct(s + [x], handle) && Below(s + [x], handle, bound + 1)
  {
    var r := s + [x];
    forall i, j | 0 <= i < j < |r|
      ensures handle(r[i]) != handle(r[j])
    {
      assert r[i] == s[i];
    }
  }

  /** Adding an object with the next handle at the front keeps handles distinct and handed out. */
  lemma PrependFresh<T>(s: seq<T>, handle: T -> Handle, x: T, bound: Handle)
    requires Distinct(s, handle) && Below(s, handle, bound) && handle(x) == bound
    ensures Distinct([x] + s, handle) && Below([x] + s, handle, bound + 1)
  {
    var r := [x] + s;
    forall i, j | 0 <= i < j < |r|
      ensures handle(r[i]) != handle(r[j])
    {
      assert r[j] == s[j - 1];
      if i > 0 {
        assert r[i] == s[i - 1];
      }
    }
  }

  lemma BelowGrows<T>(s: seq<T>, handle: T -> Handle, bound: Handle)
    requires Below(s, handle, bound)
    ensures Below(s, handle, bound + 1)
  {
  }

  /** There is a default render-settings entry, and handles are distinct and handed out. */
  ghost predicate Consistent(renderData: seq<RenderData>, takes: seq<Take>, nextHandle: Handle) {
    && |renderData| >= 1
    && Distinct(renderData, RenderDataHandle) && Below(renderData, RenderDataHandle, nextHandle)
    && Distinct(takes, TakeHandle) && Below(takes, TakeHandle, nextHandle)
  }

  /** `InsertRenderDataLast` of a fresh clone keeps the lists consistent. */
  lemma AppendRenderDataConsistent(renderData: seq<RenderData>, takes: seq<Take>, next: Handle, x: RenderData)
    requires Consistent(renderData, takes, next) && x.handle == next
    ensures Consistent(renderData + [x], takes, next + 1)
  {
    AppendFresh(renderData, RenderDataHandle, x, next);
    BelowGrows(takes, TakeHandle, next);
  }

  /** Adding a fresh take in front of the main take's children keeps the lists consistent. */
  lemma PrependTakeConsistent(renderData: seq<RenderData>, takes: seq<Take>, next: Handle, x: Take)
    requires Consistent(renderData, takes, next) && x.handle == next
    ensures Consistent(renderData, [x] + takes, next + 1)
  {
    PrependFresh(takes, TakeHandle, x, next);
    BelowGrows(renderData, RenderDataHandle, next);
  }

  /** `Remove()` of a non-default render-settings entry drops exactly that entry and keeps the lists consistent. */
  lemma RemoveRenderDataConsistent(renderData: seq<RenderData>, takes: seq<Take>, next: Handle, i: nat)
    requires Consistent(renderData, takes, next) && 1 <= i < |renderData|
    ensures Without(renderData, RenderDataHandle, renderData[i].handle) == renderData[..i] + renderData[i + 1..]
    ensures Consistent(renderData[..i] + renderData[i + 1..], takes, next)
  {
    WithoutAt(renderData, RenderDataHandle, i);
    DropKeepsDistinct(renderData, RenderDataHandle, i, next);
  }

  /** `Remove()` of a take drops exactly that take and keeps the lists consistent. */
  lemma RemoveTakeConsistent(renderData: seq<RenderData>, takes: seq<Take>, next: Handle, i: nat)
    requires Consistent(renderData, takes, next) && i < |takes|
    ensures Without(takes, TakeHandle, takes[i].handle) == takes[..i] + takes[i + 1..]
    ensures Consistent(renderData, takes[..i] + takes[i + 1..], next)
  {
    WithoutAt(takes, TakeHandle, i);
    DropKeepsDistinct(takes, TakeHandle, i, next);
  }

  /** `Remove()` of the first take leaves the rest of the takes, consistent. */
  lemma RemoveFirstTakeConsistent(renderData: seq<RenderData>, takes: seq<Take>, next: Handle)
    requires Consistent(renderData, takes, next) && takes != []
    ensures Without(takes, TakeHandle, takes[0].handle) == takes[1..]
    ensures Consistent(renderData, takes[1..], next)
  {
    RemoveTakeConsistent(renderData, takes, next, 0);
    assert takes[..0] + takes[1..] == takes[1..];
  }

  class Document {
    /** The scene; the plugin reads it and never changes it. */
    const scene: Scene
    var renderData: seq<RenderData>
    var takes: seq<Take>
    var nextHandle: Handle

    /** The scene is well formed and the two lists are consistent. */
    ghost predicate Valid()
      reads this
    {
      Wf(scene) && Consistent(renderData, takes, nextHandle)
    }

    constructor(scene: Scene, renderData: seq<RenderData>, takes: seq<Take>, nextHandle: Handle)
      requires Wf(scene) && Consistent(renderData, takes, nextHandle)
      ensures Valid()
      ensures this.scene == scene && this.renderData == renderData
      ensures this.takes == takes && this.nextHandle == nextHandle
    {
      this.scene := scene;
      this.renderData := renderData;
      this.takes := takes;
      this.nextHandle := nextHandle;
    }
  }
}
