/**
  The node-network portrait: four shader nodes float around fixed base positions
  and each is joined to the centre of the portrait by a cubic Bézier curve. The
  position dictionary is filled node by node, once from the base positions and
  then on every animation frame from the floating offsets. `Math.sin` and
  `Math.cos` are parameters whose values lie in [-1, 1]; the elapsed time is an
  input of the frame.
 */
module NetworkPortrait {
  import opened Arith

  datatype FloatingNode = FloatingNode(
    id: string,
    nodeLabel: string,
    headerColor: string,
    inputs: seq<string>,
    outputs: seq<string>,
    baseX: real,
    baseY: real,
    floatAmplitudeX: real,
    floatAmplitudeY: real,
    floatSpeedX: real,
    floatSpeedY: real,
    floatPhase: real)

  const FloatingNodes: seq<FloatingNode> := [
    FloatingNode("image", "Image", "#6b3d7a", ["UV"], ["Color"], -145.0, -70.0, 6.0, 8.0, 0.0008, 0.001, 0.0),
    FloatingNode("noise", "Noise", "#6b3d7a", [], ["Fac"], 130.0, -85.0, 7.0, 5.0, 0.0009, 0.0007, Pi * 0.5),
    FloatingNode("mix", "Mix", "#6b8e4e", ["A", "B"], ["Out"], -155.0, 65.0, 5.0, 7.0, 0.0007, 0.0009, Pi),
    FloatingNode("bsdf", "BSDF", "#4b6e9e", ["Color"], ["Shader"], 140.0, 75.0, 6.0, 6.0, 0.00085, 0.0011, Pi * 1.5)
  ]

  /** A position, relative to the centre of the portrait for a node, absolute for a path point. */
  datatype Pos = Pos(x: real, y: real)

  /** A wave function such as sine or cosine: every value lies in [-1, 1]. */
  ghost predicate Bounded(wave: real -> real)
  {
    forall a :: -1.0 <= wave(a) <= 1.0
  }

  predicate DistinctIds(nodes: seq<FloatingNode>)
  {
    forall i, j :: 0 <= i < j < |nodes| ==> nodes[i].id != nodes[j].id
  }

  /** The ids of the first `n` nodes. */
  function Ids(nodes: seq<FloatingNode>, n: int): set<string>
    requires 0 <= n <= |nodes|
  {
    set k | 0 <= k < n :: nodes[k].id
  }

  /** Among the first `n` nodes, node `k` is the last with its id, so its entry is the one a
      dictionary filled in order keeps. */
  predicate LastWithId(nodes: seq<FloatingNode>, k: int, n: int)
    requires 0 <= k < n <= |nodes|
  {
    forall j :: k < j < n ==> nodes[j].id != nodes[k].id
  }

  /** The four node ids differ, so every node is the last with its id and there are four keys. */
  lemma NodeIds()
    ensures DistinctIds(FloatingNodes)
    ensures Ids(FloatingNodes, 4) == {"image", "noise", "mix", "bsdf"}
    ensures |Ids(FloatingNodes, 4)| == |FloatingNodes| == 4
  {
    var ids := Ids(FloatingNodes, 4);
    assert FloatingNodes[0].id == "image" && FloatingNodes[1].id == "noise";
    assert FloatingNodes[2].id == "mix" && FloatingNodes[3].id == "bsdf";
    assert ids == {"image", "noise", "mix", "bsdf"};
  }

  lemma DistinctLast(nodes: seq<FloatingNode>, k: int)
    requires DistinctIds(nodes) && 0 <= k < |nodes|
    ensures LastWithId(nodes, k, |nodes|)
  {
  }

  // ---------------------------------------------------------------------
  // Positions

  /** The position a node floats to after `elapsed` milliseconds: its base plus the sine of its
      horizontal phase times its horizontal amplitude, and likewise with the cosine vertically. */
  function Float(node: FloatingNode, elapsed: real, sin: real -> real, cos: real -> real): (p: Pos)
    ensures Bounded(sin) && node.floatAmplitudeX >= 0.0 ==>
      node.baseX - node.floatAmplitudeX <= p.x <= node.baseX + node.floatAmplitudeX
    ensures Bounded(cos) && node.floatAmplitudeY >= 0.0 ==>
      node.baseY - node.floatAmplitudeY <= p.y <= node.baseY + node.floatAmplitudeY
  {
    var floatX := Offset(sin(elapsed * node.floatSpeedX + node.floatPhase), node.floatAmplitudeX);
    var floatY := Offset(cos(elapsed * node.floatSpeedY + node.floatPhase), node.floatAmplitudeY);
    Pos(node.baseX + floatX, node.baseY + floatY)
  }

  /** A wave value times an amplitude: within the amplitude when the value lies in [-1, 1] and
      the amplitude is non-negative. */
  function Offset(w: real, amp: real): (o: real)
    ensures -1.0 <= w <= 1.0 && amp >= 0.0 ==> -amp <= o <= amp
  {
    ScaledWave(w, amp);
    w * amp
  }

  lemma ScaledWave(w: real, amp: real)
    ensures -1.0 <= w <= 1.0 && amp >= 0.0 ==> -amp <= w * amp <= amp
  {
    if -1.0 <= w <= 1.0 && amp >= 0.0 {
      MulMonotoneReal(-1.0, w, amp);
      MulMonotoneReal(w, 1.0, amp);
    }
  }

  /** Where the nodes are put: at their bases (the initial state) or floating in a frame. */
  datatype Motion = AtBase | Floating(elapsed: real, sin: real -> real, cos: real -> real)

  /** One node's position: its base initially, and never farther than its amplitudes from it in a frame. */
  function PlaceNode(node: FloatingNode, motion: Motion): (p: Pos)
    ensures motion.AtBase? ==> p == Pos(node.baseX, node.baseY)
    ensures motion.Floating? && Bounded(motion.sin) && node.floatAmplitudeX >= 0.0 ==>
      node.baseX - node.floatAmplitudeX <= p.x <= node.baseX + node.floatAmplitudeX
    ensures motion.Floating? && Bounded(motion.cos) && node.floatAmplitudeY >= 0.0 ==>
      node.baseY - node.floatAmplitudeY <= p.y <= node.baseY + node.floatAmplitudeY
  {
    match motion
    case AtBase => Pos(node.baseX, node.baseY)
    case Floating(elapsed, sin, cos) => Float(node, elapsed, sin, cos)
  }

  /** The dictionary after the first `n` nodes have written their entries in order. */
  function Placed(nodes: seq<FloatingNode>, n: nat, motion: Motion): (m: map<string, Pos>)
    requires n <= |nodes|
    ensures n == 0 ==> m == map[]
    ensures n > 0 ==> nodes[n - 1].id in m && m[nodes[n - 1].id] == PlaceNode(nodes[n - 1], motion)
  {
    if n == 0 then map[] else Placed(nodes, n - 1, motion)[nodes[n - 1].id := PlaceNode(nodes[n - 1], motion)]
  }

  /** The dictionary has one key per distinct id among the nodes written. */
  lemma {:induction false} PlacedKeys(nodes: seq<FloatingNode>, n: nat, motion: Motion)
    requires n <= |nodes|
    ensures Placed(nodes, n, motion).Keys == Ids(nodes, n)
  {
    if n > 0 {
      PlacedKeys(nodes, n - 1, motion);
      PrefixStep(nodes, n - 1);
    }
  }

  /** A node's entry is its own placement as long as no later node has its id. */
  lemma {:induction false} PlacedLookup(nodes: seq<FloatingNode>, n: nat, motion: Motion, k: nat)
    requires k < n <= |nodes| && LastWithId(nodes, k, n)
    ensures nodes[k].id in Placed(nodes, n, motion)
    ensures Placed(nodes, n, motion)[nodes[k].id] == PlaceNode(nodes[k], motion)
  {
    if k < n - 1 {
      PrefixStep(nodes, n - 1);
      PlacedLookup(nodes, n - 1, motion, k);
    }
  }

  /** Filling a fresh dictionary in node order: the initial positions and each animation frame. */
  method Positions(nodes: seq<FloatingNode>, motion: Motion) returns (m: map<string, Pos>)
    ensures m == Placed(nodes, |nodes|, motion)
  {
    m := map[];
    var i := 0;
    while i < |nodes|
      invariant 0 <= i <= |nodes|
      invariant m == Placed(nodes, i, motion)
    {
      m := m[nodes[i].id := PlaceNode(nodes[i], motion)];
      i := i + 1;
    }
  }

  /** Taking one more node adds its id, and a node that is last with its id among the longer
      prefix was last among the shorter one and has a different id from the new node. */
  lemma PrefixStep(nodes: seq<FloatingNode>, i: int)
    requires 0 <= i < |nodes|
    ensures Ids(nodes, i + 1) == Ids(nodes, i) + {nodes[i].id}
    ensures LastWithId(nodes, i, i + 1)
    ensures forall k :: 0 <= k < i && LastWithId(nodes, k, i + 1) ==>
      LastWithId(nodes, k, i) && nodes[k].id != nodes[i].id
  {
    assert nodes[i].id in Ids(nodes, i + 1);
  }

  /** In any frame every node whose entry is its own is within its amplitudes of its base. */
  lemma FrameWithinAmplitude(nodes: seq<FloatingNode>, elapsed: real, sin: real -> real, cos: real -> real, k: nat)
    requires Bounded(sin) && Bounded(cos)
    requires k < |nodes| && LastWithId(nodes, k, |nodes|)
    requires nodes[k].floatAmplitudeX >= 0.0 && nodes[k].floatAmplitudeY >= 0.0
    ensures nodes[k].id in Placed(nodes, |nodes|, Floating(elapsed, sin, cos))
    ensures var p := Placed(nodes, |nodes|, Floating(elapsed, sin, cos))[nodes[k].id];
      && nodes[k].baseX - nodes[k].floatAmplitudeX <= p.x <= nodes[k].baseX + nodes[k].floatAmplitudeX
      && nodes[k].baseY - nodes[k].floatAmplitudeY <= p.y <= nodes[k].baseY + nodes[k].floatAmplitudeY
  {
    PlacedLookup(nodes, |nodes|, Floating(elapsed, sin, cos), k);
  }

  // ---------------------------------------------------------------------
  // Connection paths

  /** The centre of the 450 by 500 container, where every connection ends. */
  const CentreX: real := 225.0
  const CentreY: real := 250.0

  /** An SVG path command: a move, or a cubic curve through two control points to an end point. */
  datatype Command = MoveTo(p: Pos) | CurveTo(cp1: Pos, cp2: Pos, end: Pos)

  /** `getConnectionPath`: a move to the node's absolute position, then one curve to the centre.
      The first control point is level with the start and the second level with the end, each 30%
      of the horizontal span in from its own end, so they sit symmetrically about the middle of
      the span and in order along it (the curve never overshoots horizontally). The midpoint the
      source also computes is never used. */
  function ConnectionPath(nodePos: Pos): (path: seq<Command>)
    ensures |path| == 2 && path[0].MoveTo? && path[1].CurveTo?
    ensures path[0].p == Pos(CentreX + nodePos.x, CentreY + nodePos.y)
    ensures path[1].end == Pos(CentreX, CentreY)
    ensures var start, c := path[0].p, path[1];
      && c.cp1.y == start.y && c.cp2.y == c.end.y
      && c.cp1.x - start.x == 0.3 * (c.end.x - start.x)
      && c.end.x - c.cp2.x == 0.3 * (c.end.x - start.x)
      && c.cp1.x + c.cp2.x == start.x + c.end.x
      && (start.x <= c.end.x ==> start.x <= c.cp1.x <= c.cp2.x <= c.end.x)
      && (c.end.x <= start.x ==> c.end.x <= c.cp2.x <= c.cp1.x <= start.x)
  {
    var startX := CentreX + nodePos.x;
    var startY := CentreY + nodePos.y;
    var endX := CentreX;
    var endY := CentreY;
    var cp1X := startX + (endX - startX) * 0.3;
    var cp2X := endX - (endX - startX) * 0.3;
    [MoveTo(Pos(startX, startY)), CurveTo(Pos(cp1X, startY), Pos(cp2X, endY), Pos(endX, endY))]
  }

  // ---------------------------------------------------------------------
  // The component

  datatype Option<T> = None | Some(value: T)

  class Portrait {
    var isVisible: bool
    var imageLoaded: bool
    var hoveredNode: Option<string>
    var positions: map<string, Pos>

    /** Every node has an entry, so every lookup during rendering finds a position. */
    predicate Valid()
      reads this
    {
      positions.Keys == Ids(FloatingNodes, |FloatingNodes|)
    }

    /** First render: hidden, image not loaded, nothing hovered, every node at its base. */
    constructor ()
      ensures Valid() && !isVisible && !imageLoaded && hoveredNode == None
      ensures positions == Placed(FloatingNodes, |FloatingNodes|, AtBase)
    {
      var initial := Positions(FloatingNodes, AtBase);
      PlacedKeys(FloatingNodes, |FloatingNodes|, AtBase);
      isVisible, imageLoaded, hoveredNode := false, false, None;
      positions := initial;
    }

    /** The 100 ms timer of the mount effect makes the portrait visible. */
    method OnShowTimer()
      modifies this`isVisible
      ensures isVisible
    {
      isVisible := true;
    }

    /** The portrait image finished loading. */
    method OnImageLoad()
      modifies this`imageLoaded
      ensures imageLoaded
    {
      imageLoaded := true;
    }

    /** Pointer over node `id`, or `None` when it leaves. */
    method SetHovered(id: Option<string>)
      modifies this`hoveredNode
      ensures hoveredNode == id
    {
      hoveredNode := id;
    }

    /** One animation frame replaces the whole dictionary with the floating positions. */
    method Animate(elapsed: real, sin: real -> real, cos: real -> real)
      modifies this`positions
      ensures Valid()
      ensures positions == Placed(FloatingNodes, |FloatingNodes|, Floating(elapsed, sin, cos))
    {
      positions := Positions(FloatingNodes, Floating(elapsed, sin, cos));
      PlacedKeys(FloatingNodes, |FloatingNodes|, Floating(elapsed, sin, cos));
    }

    /** The connection drawn for node `k`, from its current position. */
    function Connection(k: nat): (path: seq<Command>)
      reads this
      requires Valid() && k < |FloatingNodes|
      ensures FloatingNodes[k].id in positions
      ensures |path| == 2 && path[0].MoveTo? && path[1].CurveTo?
      ensures path[0].p == Pos(CentreX + positions[FloatingNodes[k].id].x, CentreY + positions[FloatingNodes[k].id].y)
      ensures path[1].end == Pos(CentreX, CentreY)
    {
      assert FloatingNodes[k].id in Ids(FloatingNodes, |FloatingNodes|);
      ConnectionPath(positions[FloatingNodes[k].id])
    }

    /** Whether node `k` is drawn highlighted. */
    predicate IsHovered(k: nat)
      reads this
      requires k < |FloatingNodes|
    {
      hoveredNode == Some(FloatingNodes[k].id)
    }
  }

  /** With distinct ids every node's entry in the dictionary is its own placement: at first its
      base position, in a frame its floating position. */
  lemma EveryNodePlaced(motion: Motion, k: nat)
    requires k < |FloatingNodes|
    ensures Placed(FloatingNodes, |FloatingNodes|, motion).Keys == {"image", "noise", "mix", "bsdf"}
    ensures FloatingNodes[k].id in Placed(FloatingNodes, |FloatingNodes|, motion)
    ensures Placed(FloatingNodes, |FloatingNodes|, motion)[FloatingNodes[k].id] == PlaceNode(FloatingNodes[k], motion)
  {
    NodeIds();
    PlacedKeys(FloatingNodes, |FloatingNodes|, motion);
    DistinctLast(FloatingNodes, k);
    PlacedLookup(FloatingNodes, |FloatingNodes|, motion, k);
  }

  /** At most one node is highlighted at a time, since the ids differ. */
  lemma OneHovered(p: Portrait, i: nat, j: nat)
    requires i < j < |FloatingNodes|
    ensures !(p.IsHovered(i) && p.IsHovered(j))
  {
    NodeIds();
  }

  /** In every frame each of the four nodes is within its amplitudes of its base position,
      five to eight units at most. */
  lemma FrameAmplitudes(elapsed: real, sin: real -> real, cos: real -> real, k: nat)
    requires Bounded(sin) && Bounded(cos) && k < |FloatingNodes|
    ensures FloatingNodes[k].id in Placed(FloatingNodes, |FloatingNodes|, Floating(elapsed, sin, cos))
    ensures var n, p := FloatingNodes[k], Placed(FloatingNodes, |FloatingNodes|, Floating(elapsed, sin, cos))[FloatingNodes[k].id];
      && n.baseX - n.floatAmplitudeX <= p.x <= n.baseX + n.floatAmplitudeX
      && n.baseY - n.floatAmplitudeY <= p.y <= n.baseY + n.floatAmplitudeY
  {
    NodeIds();
    DistinctLast(FloatingNodes, k);
    FrameWithinAmplitude(FloatingNodes, elapsed, sin, cos, k);
  }
}
