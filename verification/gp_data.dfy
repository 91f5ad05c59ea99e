/**
 * The slice of the host's grease pencil data that the keyframe tools read and
 * write: layers holding keyframes. Host objects become plain records; the
 * grease pencil datablock, whose layer list the tools change in place, is a class.
 */
module GreasePencilData {
  import opened Wrappers

  /** The host's keyframe types, in the order of the `keyframe_types` dict. */
  datatype KeyframeType = Keyframe | Extreme | Breakdown | Jitter | MovingHold

  /** `list(keyframe_types.keys()).index(t)` (animation/core.py:15-21). */
  function KeyframeTypeIndex(t: KeyframeType): (i: nat)
    ensures i < 5
  {
    match t
    case Keyframe => 0
    case Extreme => 1
    case Breakdown => 2
    case Jitter => 3
    case MovingHold => 4
  }

  /** A keyframe (`GPencilFrame`). */
  datatype Frame = Frame(frameNumber: int, select: bool, tag: bool, keyframeType: KeyframeType)

  /**
   * A layer (`GPencilLayer`). `isActive` is `layer == gp.layers.active`;
   * `activeFrame` is the position in `frames` of the host's `active_frame`.
   */
  datatype Layer = Layer(
    lock: bool,
    select: bool,
    hide: bool,
    isActive: bool,
    parentBone: string,
    frames: seq<Frame>,
    activeFrame: Option<nat>)

  /** `sys.maxsize`, the default upper bound of keyframe queries. */
  const MAXSIZE: int := 0x7fff_ffff_ffff_ffff

  function FrameNumbers(fs: seq<Frame>): (r: seq<int>)
    ensures |r| == |fs|
    ensures forall i :: 0 <= i < |fs| ==> r[i] == fs[i].frameNumber
  {
    if fs == [] then [] else [fs[0].frameNumber] + FrameNumbers(fs[1..])
  }

  /** The host keeps a layer's keyframes ordered by frame number, one keyframe per frame. */
  ghost predicate StrictlyAscending(fs: seq<Frame>) {
    forall i, j :: 0 <= i < j < |fs| ==> fs[i].frameNumber < fs[j].frameNumber
  }

  ghost predicate Ascending(xs: seq<int>) {
    forall i, j :: 0 <= i < j < |xs| ==> xs[i] <= xs[j]
  }

  /** Every layer's active frame, when it has one, is one of its keyframes. */
  ghost predicate ActiveFramesInRange(layers: seq<Layer>) {
    forall i :: 0 <= i < |layers| && layers[i].activeFrame.Some? ==>
      layers[i].activeFrame.value < |layers[i].frames|
  }

  /** The host flags at most one layer as `gp.layers.active`. */
  ghost predicate AtMostOneActive(layers: seq<Layer>) {
    forall i, j :: 0 <= i < j < |layers| && layers[i].isActive ==> !layers[j].isActive
  }

  /** Position of `gp.layers.active`: the first layer flagged active. */
  function ActiveLayerIndex(layers: seq<Layer>): (r: Option<nat>)
    ensures r.None? <==> forall i :: 0 <= i < |layers| ==> !layers[i].isActive
    ensures r.Some? ==> r.value < |layers| && layers[r.value].isActive &&
                        forall i :: 0 <= i < r.value ==> !layers[i].isActive
  {
    if layers == [] then None
    else if layers[0].isActive then Some(0)
    else match ActiveLayerIndex(layers[1..])
         case None => None
         case Some(i) => Some(i + 1)
  }

  /** A grease pencil datablock; only its layer list is modelled. */
  class GreasePencil {
    var layers: seq<Layer>

    constructor (layers: seq<Layer>)
      ensures this.layers == layers
    {
      this.layers := layers;
    }
  }
}
