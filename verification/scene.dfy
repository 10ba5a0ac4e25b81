/**
 The part of the host scene the plugin reads: objects with a type id, a name, a
 parent and tags, and animation tracks looked up by owner and parameter.
 */
module Scene {
  import opened Wrappers
  import opened NaturalOrder

  /**
   Object handles. The parent relation is kept acyclic by numbering: a parent's id
   is always smaller than its child's (any finite tree can be numbered this way).
   */
  type NodeId = nat
  type TagId = nat

  /** A time in the host's tick units; the plugin only compares times. */
  type Time = int

  /** The camera type ids; 5103 is listed twice, which does not change membership. */
  const CAMERA_IDS: seq<int> := [1057516, 5103, 5103]
  const ALIGN_TO_SPLINE_TAG: int := 5699
  const TARGET_TAG: int := 5676

  /** A tag; `link` and `upLink` are the target and up-vector links of a target tag. */
  datatype Tag = Tag(id: TagId, kind: int, link: Option<NodeId>, upLink: Option<NodeId>)

  datatype Node = Node(typeId: int, name: string, parent: Option<NodeId>, tags: seq<Tag>)

  /** The animated parameters the plugin asks for. */
  datatype Param = RelPosition | RelRotation | RelScale | SplinePosition | SplineSegment

  /** A track belongs to an object or to a tag. */
  datatype Owner = ObjectTracks(node: NodeId) | TagTracks(tag: TagId)

  datatype TrackKey = TrackKey(owner: Owner, param: Param)

  /** `tracks[k]` holds the key times of the track `k`, first key first. */
  datatype Scene = Scene(nodes: map<NodeId, Node>, tracks: map<TrackKey, seq<Time>>)

  /** Parents exist and have smaller ids; every present track has a key. */
  predicate Wf(s: Scene) {
    && (forall n :: n in s.nodes && s.nodes[n].parent.Some? ==>
          s.nodes[n].parent.value in s.nodes && s.nodes[n].parent.value < n)
    && (forall k :: k in s.tracks ==> |s.tracks[k]| > 0)
  }

  /** Every object listed is in the scene. */
  ghost predicate InScene(s: Scene, objs: seq<NodeId>) {
    forall i :: 0 <= i < |objs| ==> objs[i] in s.nodes
  }

  /** Every object listed is a camera of the scene. */
  ghost predicate AllCameras(s: Scene, objs: seq<NodeId>) {
    forall i :: 0 <= i < |objs| ==> objs[i] in s.nodes && IsCamera(s, objs[i])
  }

  /** The node `p` (if any) followed by its ancestors, nearest first. */
  function UpChain(s: Scene, p: Option<NodeId>): (r: seq<NodeId>)
    requires Wf(s) && (p.Some? ==> p.value in s.nodes)
    ensures InScene(s, r)
    decreases if p.Some? then p.value + 1 else 0
  {
    match p
    case None => []
    case Some(q) =>
      var up := UpChain(s, s.nodes[q].parent);
      assert forall i :: 0 < i < |up| + 1 ==> ([q] + up)[i] == up[i - 1];
      [q] + up
  }

  /**
   The chain starts at `p`, each entry is the parent of the one before, and the
   last has no parent.
   */
  lemma {:induction false} UpChainLinks(s: Scene, p: Option<NodeId>)
    requires Wf(s) && (p.Some? ==> p.value in s.nodes)
    ensures var r := UpChain(s, p);
            && (r == [] <==> p == None)
            && (r != [] ==> r[0] == p.value)
            && (forall i :: 0 <= i < |r| - 1 ==> s.nodes[r[i]].parent == Some(r[i + 1]))
            && (r != [] ==> s.nodes[r[|r| - 1]].parent == None)
    decreases if p.Some? then p.value + 1 else 0
  {
    match p
    case None =>
    case Some(q) =>
      var up := UpChain(s, s.nodes[q].parent);
      UpChainLinks(s, s.nodes[q].parent);
      var r := [q] + up;
      assert forall i :: 0 < i < |r| ==> r[i] == up[i - 1];
  }

  /** Ids strictly decrease along the chain. */
  lemma {:induction false} UpChainDecreasing(s: Scene, p: Option<NodeId>)
    requires Wf(s) && (p.Some? ==> p.value in s.nodes)
    ensures var r := UpChain(s, p);
            forall i, j :: 0 <= i < j < |r| ==> r[j] < r[i]
    decreases if p.Some? then p.value + 1 else 0
  {
    match p
    case None =>
    case Some(q) =>
      var up := UpChain(s, s.nodes[q].parent);
      UpChainDecreasing(s, s.nodes[q].parent);
      UpChainLinks(s, s.nodes[q].parent);
      var r := [q] + up;
      forall i, j | 0 <= i < j < |r|
        ensures r[j] < r[i]
      {
        assert r[j] == up[j - 1];
        if i == 0 {
          assert up[0] == s.nodes[q].parent.value < q;
          if j > 1 {
            assert up[j - 1] < up[0];
          }
        } else {
          assert r[i] == up[i - 1];
        }
      }
  }

  /** The strict ancestors of `n`, parent first, up to the root. */
  function Ancestors(s: Scene, n: NodeId): (r: seq<NodeId>)
    requires Wf(s) && n in s.nodes
    ensures InScene(s, r)
  {
    UpChain(s, s.nodes[n].parent)
  }

  /**
   The first ancestor is the parent of `n`, each entry is the parent of the one
   before, the last has no parent, and ids strictly decrease, so `n` is not among them.
   */
  lemma AncestorsSpec(s: Scene, n: NodeId)
    requires Wf(s) && n in s.nodes
    ensures var r := Ancestors(s, n);
            && (r == [] <==> s.nodes[n].parent == None)
            && (r != [] ==> r[0] == s.nodes[n].parent.value)
            && (forall i :: 0 <= i < |r| - 1 ==> s.nodes[r[i]].parent == Some(r[i + 1]))
            && (r != [] ==> s.nodes[r[|r| - 1]].parent == None)
            && (forall i :: 0 <= i < |r| ==> r[i] < n)
            && n !in r
  {
    var r := Ancestors(s, n);
    UpChainLinks(s, s.nodes[n].parent);
    UpChainDecreasing(s, s.nodes[n].parent);
    forall i | 0 <= i < |r|
      ensures r[i] < n
    {
      assert r[0] == s.nodes[n].parent.value < n;
      if i > 0 {
        assert r[i] < r[0];
      }
    }
  }

  /**
   `getParents`: follows `GetUp()` until there is no parent, collecting every
   parent on the way.
   */
  method GetParents(s: Scene, obj: NodeId) returns (parents: seq<NodeId>)
    requires Wf(s) && obj in s.nodes
    ensures parents == Ancestors(s, obj)
  {
    parents := [];
    var parent := s.nodes[obj].parent;
    while parent.Some?
      invariant parent.Some? ==> parent.value in s.nodes
      invariant parents + UpChain(s, parent) == Ancestors(s, obj)
      decreases if parent.Some? then parent.value + 1 else 0
    {
      var q := parent.value;
      var next := s.nodes[q].parent;
      assert UpChain(s, parent) == [q] + UpChain(s, next);
      assert parents + UpChain(s, parent) == (parents + [q]) + UpChain(s, next);
      parents := parents + [q];
      parent := next;
    }
  }

  predicate IsCamera(s: Scene, n: NodeId)
    requires n in s.nodes
  {
    s.nodes[n].typeId in CAMERA_IDS
  }

  /** The camera objects of `objs`, in order, each occurrence kept. */
  function CamerasIn(s: Scene, objs: seq<NodeId>): seq<NodeId>
    requires InScene(s, objs)
  {
    if objs == [] then []
    else
      var last := objs[|objs| - 1];
      CamerasIn(s, objs[..|objs| - 1]) + if IsCamera(s, last) then [last] else []
  }

  /** Only cameras are kept, and each camera as often as it occurs in `objs`. */
  lemma {:induction false} CamerasInSpec(s: Scene, objs: seq<NodeId>)
    requires InScene(s, objs)
    ensures |CamerasIn(s, objs)| <= |objs|
    ensures AllCameras(s, CamerasIn(s, objs))
    ensures forall x :: x in s.nodes ==>
              multiset(CamerasIn(s, objs))[x] == if IsCamera(s, x) then multiset(objs)[x] else 0
  {
    if objs != [] {
      var init, last := objs[..|objs| - 1], objs[|objs| - 1];
      assert objs == init + [last];
      CamerasInSpec(s, init);
    }
  }

  /** The sort key of an object: the natural key of its name. */
  function NameKey(s: Scene): NodeId -> seq<Part> {
    n => if n in s.nodes then NaturalKeys(s.nodes[n].name) else []
  }

  /** `GetTag(kind)`: the first tag of that kind on the object, if any. */
  function FirstTag(tags: seq<Tag>, kind: int): (r: Option<Tag>)
    ensures r.Some? ==> r.value in tags && r.value.kind == kind
    ensures r.None? ==> forall t :: t in tags ==> t.kind != kind
  {
    if tags == [] then None
    else if tags[0].kind == kind then Some(tags[0])
    else
      assert forall t :: t in tags[1..] ==> t in tags;
      FirstTag(tags[1..], kind)
  }

  /** Of several tags of one kind, `GetTag` finds the one nearest the front. */
  lemma {:induction false} FirstTagIsFirst(tags: seq<Tag>, kind: int, i: nat)
    requires i < |tags| && tags[i].kind == kind
    requires forall j :: 0 <= j < i ==> tags[j].kind != kind
    ensures FirstTag(tags, kind) == Some(tags[i])
  {
    if i > 0 {
      FirstTagIsFirst(tags[1..], kind, i - 1);
    }
  }
}
