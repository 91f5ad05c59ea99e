/**
 * The keyframe tools of the dopesheet (animation/ops.py): flipping to the
 * previous or next keyframe, editing the lightbox (the onion-skin tags), the
 * shift operator's absolute offset, the current keyframe's duration, and the
 * frame-change and undo handlers. Host state the tools read and write becomes
 * the Scene and WindowManager classes.
 */
module KeyframeOps {
  import opened Wrappers
  import opened Seqs
  import opened GreasePencilData
  import opened Keyframes

  /** The return value of an operator's `execute`. */
  datatype OpStatus = Finished | Cancelled

  /** The scene fields the tools use; `useGpencilOffsetFrames` is `tool_settings.use_gpencil_offset_frames`. */
  class Scene {
    var frameCurrent: int
    var framePreviewStart: int
    var framePreviewEnd: int
    var usePreviewRange: bool
    var useGpencilOffsetFrames: bool

    constructor (frameCurrent: int, framePreviewStart: int, framePreviewEnd: int, usePreviewRange: bool,
                 useGpencilOffsetFrames: bool)
      ensures this.frameCurrent == frameCurrent
      ensures this.framePreviewStart == framePreviewStart && this.framePreviewEnd == framePreviewEnd
      ensures this.usePreviewRange == usePreviewRange
      ensures this.useGpencilOffsetFrames == useGpencilOffsetFrames
    {
      this.frameCurrent := frameCurrent;
      this.framePreviewStart := framePreviewStart;
      this.framePreviewEnd := framePreviewEnd;
      this.usePreviewRange := usePreviewRange;
      this.useGpencilOffsetFrames := useGpencilOffsetFrames;
    }
  }

  /** The window-manager properties of the tools: the Shift & Trace settings and the last edit frame. */
  class WindowManager {
    var pinToFrame: bool
    var pinnedFrameNumber: int
    var gpLastEditFrame: int

    /** The registered defaults. */
    constructor ()
      ensures !pinToFrame && pinnedFrameNumber == 0 && gpLastEditFrame == -1
    {
      pinToFrame := false;
      pinnedFrameNumber := 0;
      gpLastEditFrame := -1;
    }
  }

  // ----- Keyframe flipping -----

  datatype Direction = Left | Right

  datatype LayerMode = ActiveMode | VisibleMode

  /** `keyframe_types`: a `BoolVectorProperty` of size 5, one flag per keyframe type. */
  type TypeMask = m: seq<bool> | |m| == 5 witness [true, true, true, true, true]

  /** `GPencilFlippingSettings`. */
  datatype FlippingSettings = FlippingSettings(
    useFilter: bool,
    keyframeTypes: TypeMask,
    layerMode: LayerMode,
    loop: bool,
    usePreviewRange: bool)

  /**
   * The layers the flip looks at: the visible ones, or the active one. Without
   * an active layer, reading `frames` of None raises AttributeError.
   */
  function FlipLayers(layers: seq<Layer>, mode: LayerMode): (r: Result<seq<Layer>, PyException>)
    ensures mode == VisibleMode ==> r.Ok? && forall l :: l in r.value <==> l in layers && !l.hide
    ensures mode == ActiveMode ==>
      (r.Ok? <==> ActiveLayerIndex(layers).Some?) &&
      (r.Ok? ==> r.value == [layers[ActiveLayerIndex(layers).value]]) &&
      (r.Err? ==> r.error == AttributeError)
  {
    match mode
    case VisibleMode => Ok(Filter(layers, (l: Layer) => !l.hide))
    case ActiveMode =>
      match ActiveLayerIndex(layers)
      case None => Err(AttributeError)
      case Some(i) => Ok([layers[i]])
  }

  /** `itertools.chain.from_iterable` over the layers' frames. */
  function Chain(layers: seq<Layer>): (r: seq<Frame>)
    ensures forall f :: f in r <==> exists l :: l in layers && f in l.frames
  {
    if layers == [] then []
    else
      var rest := Chain(layers[1..]);
      assert forall l :: l in layers <==> l == layers[0] || l in layers[1..];
      layers[0].frames + rest
  }

  /** The keyframe-type condition of the flip. */
  predicate TypeAllowed(settings: FlippingSettings, f: Frame) {
    !settings.useFilter || settings.keyframeTypes[KeyframeTypeIndex(f.keyframeType)]
  }

  /** Whether the flip restricts itself to the preview range: both flags must be on. */
  predicate InPreview(settings: FlippingSettings, sceneUsePreview: bool, start: int, end: int, f: Frame) {
    !(settings.usePreviewRange && sceneUsePreview) || start <= f.frameNumber <= end
  }

  /**
   * The flip candidates: the keyframes of the chosen layers, restricted to the
   * allowed keyframe types when filtering is on, and to the inclusive preview
   * range when both preview flags are on.
   */
  function FlipCandidates(layers: seq<Layer>, settings: FlippingSettings,
                          sceneUsePreview: bool, start: int, end: int): (r: seq<Frame>)
    ensures forall f :: f in r <==>
      (exists l :: l in layers && f in l.frames) &&
      TypeAllowed(settings, f) && InPreview(settings, sceneUsePreview, start, end, f)
  {
    var typed := Filter(Chain(layers), (f: Frame) => TypeAllowed(settings, f));
    if settings.usePreviewRange && sceneUsePreview then
      Filter(typed, (f: Frame) => start <= f.frameNumber <= end)
    else typed
  }

  /** `compare_func`: a frame lies beyond the current one in the flip direction. */
  predicate Beyond(d: Direction, frameNumber: int, current: int) {
    if d == Left then frameNumber < current else frameNumber > current
  }

  /** The sort key of the flip: `sorted(..., reverse=True)` for LEFT is a stable sort on the negated number. */
  function FlipKey(d: Direction): Frame -> int {
    if d == Left then (f: Frame) => -f.frameNumber else (f: Frame) => f.frameNumber
  }

  /** `next(kf for kf in s if compare_func(kf.frame_number, actframe), None)`. */
  function FirstBeyond(s: seq<Frame>, d: Direction, current: int): (r: Option<nat>)
    ensures r.None? <==> forall i :: 0 <= i < |s| ==> !Beyond(d, s[i].frameNumber, current)
    ensures r.Some? ==> r.value < |s| && Beyond(d, s[r.value].frameNumber, current) &&
                        forall i :: 0 <= i < r.value ==> !Beyond(d, s[i].frameNumber, current)
  {
    if s == [] then None
    else if Beyond(d, s[0].frameNumber, current) then Some(0)
    else match FirstBeyond(s[1..], d, current)
         case None => None
         case Some(i) => Some(i + 1)
  }

  /**
   * The frame the flip moves to, or None when it is cancelled: the first sorted
   * candidate beyond the current frame, else (with loop on) the first sorted
   * candidate.
   */
  function FlipTarget(candidates: seq<Frame>, d: Direction, current: int, loop: bool): Option<int> {
    if candidates == [] then None
    else
      var sorted := SortBy(candidates, FlipKey(d));
      match FirstBeyond(sorted, d, current)
      case Some(i) => Some(sorted[i].frameNumber)
      case None => if loop then Some(sorted[0].frameNumber) else None
  }

  /** `a` comes no later than `b` in the flip order: smaller for RIGHT, larger for LEFT. */
  predicate NoLater(d: Direction, a: int, b: int) {
    if d == Left then a >= b else a <= b
  }

  /**
   * The flip rule. When some candidate lies beyond the current frame, the flip
   * goes to the nearest such candidate (the smallest greater frame for RIGHT,
   * the largest smaller one for LEFT). Otherwise, with loop on, it wraps to the
   * extreme candidate in the flip order (the minimum for RIGHT, the maximum for
   * LEFT); without loop, or without candidates, it is cancelled.
   */
  lemma FlipTargetSpec(candidates: seq<Frame>, d: Direction, current: int, loop: bool)
    ensures FlipTarget(candidates, d, current, loop).Some? ==>
      exists f :: f in candidates && f.frameNumber == FlipTarget(candidates, d, current, loop).value
    ensures (exists f :: f in candidates && Beyond(d, f.frameNumber, current)) ==>
      var t := FlipTarget(candidates, d, current, loop);
      t.Some? && Beyond(d, t.value, current) &&
      forall f :: f in candidates && Beyond(d, f.frameNumber, current) ==> NoLater(d, t.value, f.frameNumber)
    ensures (forall f :: f in candidates ==> !Beyond(d, f.frameNumber, current)) ==>
      var t := FlipTarget(candidates, d, current, loop);
      (t.Some? <==> loop && candidates != []) &&
      (t.Some? ==> forall f :: f in candidates ==> NoLater(d, t.value, f.frameNumber))
  {
    if candidates != [] {
      var sorted := SortBy(candidates, FlipKey(d));
      SortByMembers(candidates, FlipKey(d));
      match FirstBeyond(sorted, d, current)
      case Some(i) =>
        FirstBeyondNearest(sorted, d, current, i);
      case None =>
        SortedHeadNoLater(sorted, d);
    }
  }

  /** The first sorted keyframe beyond the current frame comes no later than any other beyond it. */
  lemma FirstBeyondNearest(sorted: seq<Frame>, d: Direction, current: int, i: nat)
    requires SortedBy(sorted, FlipKey(d)) && i < |sorted|
    requires FirstBeyond(sorted, d, current) == Some(i)
    ensures forall f :: f in sorted && Beyond(d, f.frameNumber, current) ==> NoLater(d, sorted[i].frameNumber, f.frameNumber)
  {
    forall f | f in sorted && Beyond(d, f.frameNumber, current)
      ensures NoLater(d, sorted[i].frameNumber, f.frameNumber)
    {
      var j :| 0 <= j < |sorted| && sorted[j] == f;
      SortedNoLater(sorted, d, i, j);
    }
  }

  /** The first sorted keyframe comes no later than any other. */
  lemma SortedHeadNoLater(sorted: seq<Frame>, d: Direction)
    requires SortedBy(sorted, FlipKey(d)) && sorted != []
    ensures forall f :: f in sorted ==> NoLater(d, sorted[0].frameNumber, f.frameNumber)
  {
    forall f | f in sorted
      ensures NoLater(d, sorted[0].frameNumber, f.frameNumber)
    {
      var j :| 0 <= j < |sorted| && sorted[j] == f;
      SortedNoLater(sorted, d, 0, j);
    }
  }

  /** In the flip's sort order, an earlier keyframe comes no later in the flip direction. */
  lemma SortedNoLater(sorted: seq<Frame>, d: Direction, i: nat, j: nat)
    requires SortedBy(sorted, FlipKey(d))
    requires i <= j < |sorted|
    ensures NoLater(d, sorted[i].frameNumber, sorted[j].frameNumber)
  {
    if i < j {
      var key := FlipKey(d);
      assert key(sorted[i]) <= key(sorted[j]);
    }
  }

  /**
   * `ANIM_OT_keyframes_flip.execute`: sets the current frame to the flip target
   * and finishes, or cancels and leaves the frame unchanged. Without an active
   * layer in ACTIVE mode the source raises AttributeError.
   */
  method KeyframesFlip(scene: Scene, layers: seq<Layer>, settings: FlippingSettings, d: Direction)
      returns (r: Result<OpStatus, PyException>)
    modifies scene`frameCurrent
    ensures match FlipLayers(layers, settings.layerMode)
      case Err(e) => r == Err(e) && scene.frameCurrent == old(scene.frameCurrent)
      case Ok(chosen) =>
        var candidates := FlipCandidates(chosen, settings, old(scene.usePreviewRange),
                                         old(scene.framePreviewStart), old(scene.framePreviewEnd));
        match FlipTarget(candidates, d, old(scene.frameCurrent), settings.loop)
        case None => r == Ok(Cancelled) && scene.frameCurrent == old(scene.frameCurrent)
        case Some(t) => r == Ok(Finished) && scene.frameCurrent == t
  {
    var chosen := FlipLayers(layers, settings.layerMode);
    if chosen.Err? {
      return Err(chosen.error);
    }
    var candidates := FlipCandidates(chosen.value, settings, scene.usePreviewRange,
                                     scene.framePreviewStart, scene.framePreviewEnd);
    if candidates == [] {
      return Ok(Cancelled);
    }
    var keyframe := FlipKeyframe(candidates, d, scene.frameCurrent, settings.loop);
    if keyframe.None? {
      return Ok(Cancelled);
    }
    scene.frameCurrent := keyframe.value.frameNumber;
    return Ok(Finished);
  }

  /**
   * The search of the flip (animation/ops.py:293-309): sorts the candidates in
   * the flip order and takes the first one beyond the current frame, falling
   * back to the first sorted one when looping.
   */
  method FlipKeyframe(candidates: seq<Frame>, d: Direction, current: int, loop: bool) returns (keyframe: Option<Frame>)
    requires candidates != []
    ensures keyframe.None? <==> FlipTarget(candidates, d, current, loop).None?
    ensures keyframe.Some? ==> keyframe.value.frameNumber == FlipTarget(candidates, d, current, loop).value
  {
    var sorted := SortBy(candidates, FlipKey(d));
    var fallback := if loop then Some(sorted[0]) else None;
    keyframe := match FirstBeyond(sorted, d, current)
      case Some(i) => Some(sorted[i])
      case None => fallback;
  }

  // ----- Lightbox -----

  datatype LightboxAction = Add | Remove | Clear

  /** The frame filter of each action: ADD selects selected keys, REMOVE selected and tagged ones, CLEAR tagged ones. */
  function LightboxFilter(action: LightboxAction): (r: set<FrameTrait>)
    ensures SelectedFrame in r <==> action != Clear
    ensures TaggedFrame in r <==> action != Add
  {
    match action
    case Add => FrameOptionsToTraits(true, false)
    case Remove => FrameOptionsToTraits(true, true)
    case Clear => FrameOptionsToTraits(false, true)
  }

  /** A keyframe after the lightbox edit: a matching keyframe gets the action's tag value. */
  function Retag(f: Frame, action: LightboxAction): Frame {
    if FrameMatches(f, LightboxFilter(action), 0, MAXSIZE) then f.(tag := action == Add) else f
  }

  function RetagFrames(fs: seq<Frame>, action: LightboxAction): (r: seq<Frame>)
    ensures |r| == |fs|
    ensures forall k :: 0 <= k < |fs| ==> r[k] == Retag(fs[k], action)
  {
    seq(|fs|, k requires 0 <= k < |fs| => Retag(fs[k], action))
  }

  function RetagLayers(layers: seq<Layer>, action: LightboxAction): (r: seq<Layer>)
    ensures |r| == |layers|
    ensures forall i :: 0 <= i < |layers| ==> r[i] == layers[i].(frames := RetagFrames(layers[i].frames, action))
  {
    seq(|layers|, i requires 0 <= i < |layers| => layers[i].(frames := RetagFrames(layers[i].frames, action)))
  }

  /**
   * The lightbox rule on one keyframe within [0, sys.maxsize]: ADD tags it when
   * it is selected, REMOVE untags it when it is selected, CLEAR untags it; only
   * the tag changes.
   */
  lemma RetagRule(f: Frame, action: LightboxAction)
    requires 0 <= f.frameNumber <= MAXSIZE
    ensures Retag(f, action) == f.(tag := Retag(f, action).tag)
    ensures action == Add ==> Retag(f, action).tag == (f.tag || f.select)
    ensures action == Remove ==> Retag(f, action).tag == (f.tag && !f.select)
    ensures action == Clear ==> !Retag(f, action).tag
  {
  }

  /** Keyframes before frame 0 or after sys.maxsize are outside the query and never retagged. */
  lemma RetagOutOfRange(f: Frame, action: LightboxAction)
    requires f.frameNumber < 0 || f.frameNumber > MAXSIZE
    ensures Retag(f, action) == f
  {
  }

  /**
   * `ANIM_OT_lightbox_edit.execute`: cancels without change when no keyframe
   * matches the action's filter, otherwise sets the tag of every matching
   * keyframe of every layer.
   */
  method LightboxEdit(gp: GreasePencil, action: LightboxAction) returns (status: OpStatus)
    modifies gp
    ensures var keys := GetGpKeyframes(old(gp.layers), {}, LightboxFilter(action), 0, MAXSIZE);
      if keys == [] then status == Cancelled && gp.layers == old(gp.layers)
      else status == Finished && gp.layers == RetagLayers(old(gp.layers), action)
  {
    var keys := GetGpKeyframes(gp.layers, {}, LightboxFilter(action), 0, MAXSIZE);
    if keys == [] {
      return Cancelled;
    }
    var layers := gp.layers;
    var i := 0;
    while i < |layers|
      invariant 0 <= i <= |layers|
      invariant |gp.layers| == |layers|
      invariant forall p :: 0 <= p < i ==> gp.layers[p] == layers[p].(frames := RetagFrames(layers[p].frames, action))
      invariant forall p :: i <= p < |layers| ==> gp.layers[p] == layers[p]
    {
      var frames := RetagLayerFrames(layers[i].frames, action);
      gp.layers := gp.layers[i := layers[i].(frames := frames)];
      i := i + 1;
    }
    status := Finished;
  }

  /** The inner loop of the lightbox edit: sets the tag of every matching keyframe of one layer. */
  method RetagLayerFrames(fs: seq<Frame>, action: LightboxAction) returns (frames: seq<Frame>)
    ensures frames == RetagFrames(fs, action)
  {
    frames := fs;
    for k := 0 to |frames|
      invariant |frames| == |fs|
      invariant forall q :: 0 <= q < k ==> frames[q] == Retag(fs[q], action)
      invariant forall q :: k <= q < |frames| ==> frames[q] == fs[q]
    {
      if FrameMatches(frames[k], LightboxFilter(action), 0, MAXSIZE) {
        frames := frames[k := frames[k].(tag := action == Add)];
      }
    }
  }

  // ----- Shift operator -----

  function Max(a: int, b: int): int {
    if a < b then b else a
  }

  /**
   * `TRANSFORM_OT_keyframes_shift` after `setup`: the frame numbers of the
   * keyframes after the current frame on unlocked (and optionally active or
   * selected) layers, and the first one's initial value.
   */
  class KeyframesShiftOperator {
    var offset: int
    var keyframes: array<int>
    var firstKeyframeInitValue: int

    /** `setup`, for a query that found keyframes (otherwise the operator cancels). */
    constructor Setup(layers: seq<Layer>, frameCurrent: int, onlyActive: bool, onlySelected: bool, offset: int)
      requires GetGpKeyframes(layers, LayerOptionsToTraits(onlyActive, true, onlySelected), {},
                              frameCurrent + 1, MAXSIZE) != []
      ensures this.offset == offset
      ensures fresh(keyframes)
      ensures keyframes[..] == FrameNumbers(GetGpKeyframes(layers, LayerOptionsToTraits(onlyActive, true, onlySelected),
                                                           {}, frameCurrent + 1, MAXSIZE))
      ensures firstKeyframeInitValue == keyframes[0]
    {
      var keys := GetGpKeyframes(layers, LayerOptionsToTraits(onlyActive, true, onlySelected), {},
                                 frameCurrent + 1, MAXSIZE);
      var nums := FrameNumbers(keys);
      this.offset := offset;
      keyframes := new int[|nums|](i requires 0 <= i < |nums| => nums[i]);
      firstKeyframeInitValue := nums[0];
      new;
      assert keyframes[..] == nums;
    }

    /**
     * `execute`: `offset` is absolute, so the applied offset discounts the
     * distance the first keyframe has already moved; the shift adjusts the
     * offset to keep keyframes after the current frame.
     */
    method Execute(frameCurrent: int) returns (status: OpStatus)
      requires keyframes.Length > 0
      modifies keyframes
      ensures var applied := offset - (old(keyframes[0]) - firstKeyframeInitValue);
        match EffectiveOffset(old(keyframes[..]), applied, frameCurrent + 1, true)
        case None => status == Cancelled && keyframes[..] == old(keyframes[..])
        case Some(off) => status == Finished && keyframes[..] == Shifted(old(keyframes[..]), off)
    {
      var currentDelta := keyframes[0] - firstKeyframeInitValue;
      var applied := offset - currentDelta;
      var res := ShiftKeyframes(keyframes, applied, frameCurrent + 1, true);
      status := if res then Finished else Cancelled;
    }
  }

  /**
   * The absolute-offset bookkeeping: with the keyframes in ascending order and
   * still after the current frame, the first keyframe ends at its initial value
   * plus `offset`, clamped to the frame after the current one, whether or not
   * the shift happens.
   */
  lemma AbsoluteOffset(nums: seq<int>, offset: int, init: int, frameCurrent: int)
    requires |nums| > 0 && Ascending(nums) && nums[0] >= frameCurrent + 1
    ensures var applied := offset - (nums[0] - init);
      match EffectiveOffset(nums, applied, frameCurrent + 1, true)
      case None => nums[0] == Max(init + offset, frameCurrent + 1)
      case Some(off) => Shifted(nums, off)[0] == Max(init + offset, frameCurrent + 1)
  {
    var m := SeqMin(nums);
    var j :| 0 <= j < |nums| && nums[j] == m;
    if j > 0 {
      assert nums[0] <= nums[j];
    }
    assert nums[0] in nums;
  }

  // ----- Current keyframe duration -----

  /**
   * `get_current_keyframe_duration`: 0 without an active keyframe; otherwise
   * the distance from the active keyframe to the first keyframe of the active
   * layer lying after it, or 0 when there is none. With ordered keyframes that
   * is the gap to the next keyframe.
   */
  method GetCurrentKeyframeDuration(layers: seq<Layer>) returns (d: int)
    requires ActiveFramesInRange(layers)
    ensures GetActiveGpKeyframe(layers).None? ==> d == 0
    ensures GetActiveGpKeyframe(layers).Some? ==>
      var fs := layers[ActiveLayerIndex(layers).value].frames;
      var a := GetActiveGpKeyframe(layers).value;
      ((forall k :: 0 <= k < |fs| ==> fs[k].frameNumber <= a.frameNumber) ==> d == 0) &&
      ((exists k :: 0 <= k < |fs| && fs[k].frameNumber > a.frameNumber) ==>
        exists k :: 0 <= k < |fs| && fs[k].frameNumber > a.frameNumber && d == fs[k].frameNumber - a.frameNumber &&
                    forall q :: 0 <= q < k ==> fs[q].frameNumber <= a.frameNumber)
    ensures GetActiveGpKeyframe(layers).Some? && StrictlyAscending(layers[ActiveLayerIndex(layers).value].frames) ==>
      var fs := layers[ActiveLayerIndex(layers).value].frames;
      var a := layers[ActiveLayerIndex(layers).value].activeFrame.value;
      d == if a + 1 < |fs| then fs[a + 1].frameNumber - fs[a].frameNumber else 0
  {
    var gpf := GetActiveGpKeyframe(layers);
    if gpf.None? {
      return 0;
    }
    var fs := layers[ActiveLayerIndex(layers).value].frames;
    ghost var a := layers[ActiveLayerIndex(layers).value].activeFrame.value;
    var k := 0;
    while k < |fs|
      invariant 0 <= k <= |fs|
      invariant forall q :: 0 <= q < k ==> fs[q].frameNumber <= gpf.value.frameNumber
    {
      if fs[k].frameNumber > gpf.value.frameNumber {
        return fs[k].frameNumber - gpf.value.frameNumber;
      }
      k := k + 1;
    }
    return 0;
  }

  // ----- Handlers -----

  /**
   * `pin_to_frame_update_cb`: pinning records the current frame as the pinned
   * one and reassigns the scene frame to itself, which runs the frame-change
   * handler `OnFrameChanged` and so turns the shifted-frames display on;
   * unpinning turns the display back on.
   */
  method PinToFrameUpdate(wm: WindowManager, scene: Scene)
    modifies wm`pinnedFrameNumber, scene`frameCurrent, scene`useGpencilOffsetFrames
    ensures scene.frameCurrent == old(scene.frameCurrent)
    ensures wm.pinToFrame ==> wm.pinnedFrameNumber == old(scene.frameCurrent)
    ensures !wm.pinToFrame ==> wm.pinnedFrameNumber == old(wm.pinnedFrameNumber)
    ensures wm.pinToFrame ==> (scene.useGpencilOffsetFrames <==> wm.pinnedFrameNumber == scene.frameCurrent)
    ensures scene.useGpencilOffsetFrames
  {
    if wm.pinToFrame {
      wm.pinnedFrameNumber := scene.frameCurrent;
      scene.frameCurrent := scene.frameCurrent;
      OnFrameChanged(wm, scene);
    } else {
      scene.useGpencilOffsetFrames := true;
    }
  }

  /**
   * `on_frame_changed`: while pinned, shifted drawings are displayed exactly on
   * the pinned frame; unpinned, the display setting is left alone.
   */
  method OnFrameChanged(wm: WindowManager, scene: Scene)
    modifies scene`useGpencilOffsetFrames
    ensures wm.pinToFrame ==> (scene.useGpencilOffsetFrames <==> wm.pinnedFrameNumber == scene.frameCurrent)
    ensures !wm.pinToFrame ==> scene.useGpencilOffsetFrames == old(scene.useGpencilOffsetFrames)
  {
    if !wm.pinToFrame {
      return;
    }
    scene.useGpencilOffsetFrames := wm.pinnedFrameNumber == scene.frameCurrent;
  }

  /**
   * The stick-to-frame undo rule on (scene frame, last edit frame): when the
   * preference is on and the active object is in a grease pencil edit mode, a
   * scene frame that differs from the last edit frame is swapped with it.
   */
  function UndoStickToFrame(sceneFrame: int, lastEditFrame: int, applies: bool): (r: (int, int))
    ensures !applies || sceneFrame == lastEditFrame ==> r == (sceneFrame, lastEditFrame)
    ensures applies ==> r.0 == lastEditFrame && r.1 == sceneFrame
  {
    if applies && sceneFrame != lastEditFrame then (lastEditFrame, sceneFrame) else (sceneFrame, lastEditFrame)
  }

  /** Undoing twice in a row returns to the frames before the first undo. */
  lemma UndoStickToFrameTwice(sceneFrame: int, lastEditFrame: int, applies: bool)
    ensures var r := UndoStickToFrame(sceneFrame, lastEditFrame, applies);
      UndoStickToFrame(r.0, r.1, applies) == (sceneFrame, lastEditFrame)
  {
  }

  /**
   * `FlippingUndoHandler.on_undo_post`; `stickToFrame` is the add-on preference
   * and `inEditMode` whether the active object is in paint, sculpt or edit mode.
   */
  method OnUndoPost(scene: Scene, wm: WindowManager, stickToFrame: bool, inEditMode: bool)
    modifies scene`frameCurrent, wm`gpLastEditFrame
    ensures (scene.frameCurrent, wm.gpLastEditFrame) ==
      UndoStickToFrame(old(scene.frameCurrent), old(wm.gpLastEditFrame), stickToFrame && inEditMode)
  {
    if !stickToFrame || !inEditMode {
      return;
    }
    var sceneFrame := scene.frameCurrent;
    if sceneFrame != wm.gpLastEditFrame {
      scene.frameCurrent := wm.gpLastEditFrame;
      wm.gpLastEditFrame := sceneFrame;
    }
  }

  /**
   * `FlippingUndoHandler.on_depsgraph_update_post`: a geometry update of the
   * active grease pencil records the current frame as the last edit frame.
   */
  method OnDepsgraphUpdatePost(scene: Scene, wm: WindowManager, stickToFrame: bool, inEditMode: bool,
                               geometryUpdated: bool)
    modifies wm`gpLastEditFrame
    ensures stickToFrame && inEditMode && geometryUpdated ==> wm.gpLastEditFrame == scene.frameCurrent
    ensures !(stickToFrame && inEditMode && geometryUpdated) ==> wm.gpLastEditFrame == old(wm.gpLastEditFrame)
  {
    if stickToFrame && inEditMode && geometryUpdated {
      wm.gpLastEditFrame := scene.frameCurrent;
    }
  }
}
