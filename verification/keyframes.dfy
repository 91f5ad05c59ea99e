/**
 * Dopesheet utilities of the animation tools (animation/core.py): layer and
 * keyframe queries, duplication of the keyframe visible at given frames, and
 * keyframe shifting with a lower bound.
 */
module Keyframes {
  import opened Wrappers
  import opened Seqs
  import opened GreasePencilData

  // ----- Filters -----

  /** A member of the `LayerTraits` flag; a filter is the set of members present. */
  datatype LayerTrait = ActiveLayer | UnlockedLayer | SelectedLayer

  /** A member of the `FrameTraits` flag. */
  datatype FrameTrait = SelectedFrame | TaggedFrame

  /** `layer_options_to_traits`: each option adds its own member, none gives `NONE`. */
  function LayerOptionsToTraits(active: bool, unlocked: bool, selected: bool): (r: set<LayerTrait>)
    ensures ActiveLayer in r <==> active
    ensures UnlockedLayer in r <==> unlocked
    ensures SelectedLayer in r <==> selected
    ensures r == {} <==> !active && !unlocked && !selected
  {
    (if active then {ActiveLayer} else {}) +
    (if unlocked then {UnlockedLayer} else {}) +
    (if selected then {SelectedLayer} else {})
  }

  /** `frame_options_to_traits`. */
  function FrameOptionsToTraits(selected: bool, onionTag: bool): (r: set<FrameTrait>)
    ensures SelectedFrame in r <==> selected
    ensures TaggedFrame in r <==> onionTag
    ensures r == {} <==> !selected && !onionTag
  {
    (if selected then {SelectedFrame} else {}) + (if onionTag then {TaggedFrame} else {})
  }

  /** The condition of the comprehension in `get_gp_layers`. */
  predicate LayerMatches(l: Layer, filter: set<LayerTrait>) {
    (ActiveLayer !in filter || l.isActive) &&
    (UnlockedLayer !in filter || !l.lock) &&
    (SelectedLayer !in filter || l.select)
  }

  function LayerFilter(filter: set<LayerTrait>): Layer -> bool {
    l => LayerMatches(l, filter)
  }

  /** The condition of the comprehension in `get_gp_keyframes`. */
  predicate FrameMatches(f: Frame, filter: set<FrameTrait>, frameMin: int, frameMax: int) {
    frameMin <= f.frameNumber <= frameMax &&
    (SelectedFrame !in filter || f.select) &&
    (TaggedFrame !in filter || f.tag)
  }

  function FrameFilter(filter: set<FrameTrait>, frameMin: int, frameMax: int): Frame -> bool {
    f => FrameMatches(f, filter, frameMin, frameMax)
  }

  // ----- Queries -----

  /**
   * `get_gp_layers`: the layers meeting every trait of the filter, in layer
   * order; the empty filter keeps every layer.
   */
  function GetGpLayers(layers: seq<Layer>, filter: set<LayerTrait>): (r: seq<Layer>)
    ensures forall l :: l in r <==> l in layers && LayerMatches(l, filter)
    ensures filter == {} ==> r == layers
  {
    if filter == {} then
      FilterAll(layers, LayerFilter(filter));
      Filter(layers, LayerFilter(filter))
    else
      Filter(layers, LayerFilter(filter))
  }

  /** Filtering the layers of two stacked lists is filtering each one: layer order is kept. */
  lemma GetGpLayersConcat(a: seq<Layer>, b: seq<Layer>, filter: set<LayerTrait>)
    ensures GetGpLayers(a + b, filter) == GetGpLayers(a, filter) + GetGpLayers(b, filter)
  {
    FilterConcat(a, b, LayerFilter(filter));
  }

  /**
   * With the host's single active layer, the ACTIVE filter of `get_gp_layers`
   * keeps exactly `gp.layers.active`, the layer `ActiveLayerIndex` finds.
   */
  lemma {:induction false} ActiveFilterIsActiveLayer(layers: seq<Layer>)
    requires AtMostOneActive(layers)
    ensures GetGpLayers(layers, {ActiveLayer}) ==
      if ActiveLayerIndex(layers).Some? then [layers[ActiveLayerIndex(layers).value]] else []
  {
    if layers != [] {
      var rest := layers[1..];
      assert AtMostOneActive(rest) by {
        forall i, j | 0 <= i < j < |rest| && rest[i].isActive ensures !rest[j].isActive {
          assert layers[i + 1] == rest[i] && layers[j + 1] == rest[j];
        }
      }
      ActiveFilterIsActiveLayer(rest);
      if layers[0].isActive {
        assert ActiveLayerIndex(rest).None? by {
          forall i | 0 <= i < |rest| ensures !rest[i].isActive {
            assert layers[i + 1] == rest[i];
          }
        }
      }
    }
  }

  /** The keyframes accumulated by the loop of `get_gp_keyframes`, before sorting. */
  function CollectFrames(layers: seq<Layer>, filter: set<FrameTrait>, frameMin: int, frameMax: int): seq<Frame> {
    if layers == [] then []
    else Filter(layers[0].frames, FrameFilter(filter, frameMin, frameMax)) +
         CollectFrames(layers[1..], filter, frameMin, frameMax)
  }

  lemma {:induction false} CollectFramesMembers(layers: seq<Layer>, filter: set<FrameTrait>, frameMin: int, frameMax: int)
    ensures forall f :: f in CollectFrames(layers, filter, frameMin, frameMax) <==>
      FrameMatches(f, filter, frameMin, frameMax) && exists l :: l in layers && f in l.frames
  {
    if layers != [] {
      CollectFramesMembers(layers[1..], filter, frameMin, frameMax);
      forall f ensures (exists l :: l in layers && f in l.frames) <==>
                       f in layers[0].frames || exists l :: l in layers[1..] && f in l.frames
      {
        if exists l :: l in layers && f in l.frames {
          var l :| l in layers && f in l.frames;
          if l != layers[0] {
            assert l in layers[1..];
          }
        }
      }
    }
  }

  /** `lambda f: f.frame_number`, the sort key of keyframes. */
  const ByFrameNumber: Frame -> int := (f: Frame) => f.frameNumber

  /**
   * `get_gp_keyframes`: the keyframes of the matching layers that match the frame
   * filter and lie in [frameMin, frameMax], sorted by ascending frame number;
   * the sort is stable, so keyframes on one frame keep their layer order.
   */
  function GetGpKeyframes(layers: seq<Layer>, layerFilter: set<LayerTrait>, frameFilter: set<FrameTrait>,
                          frameMin: int, frameMax: int): (r: seq<Frame>)
    ensures SortedBy(r, ByFrameNumber)
    ensures multiset(r) == multiset(CollectFrames(GetGpLayers(layers, layerFilter), frameFilter, frameMin, frameMax))
    ensures forall f :: f in r <==>
      FrameMatches(f, frameFilter, frameMin, frameMax) &&
      exists l :: l in layers && LayerMatches(l, layerFilter) && f in l.frames
  {
    var kept := GetGpLayers(layers, layerFilter);
    var collected := CollectFrames(kept, frameFilter, frameMin, frameMax);
    CollectFramesMembers(kept, frameFilter, frameMin, frameMax);
    SortByMembers(collected, ByFrameNumber);
    SortBy(collected, ByFrameNumber)
  }

  /** `get_active_gp_keyframe`: the active frame of the active layer, if both exist. */
  function GetActiveGpKeyframe(layers: seq<Layer>): (r: Option<Frame>)
    requires ActiveFramesInRange(layers)
    ensures r.Some? <==> ActiveLayerIndex(layers).Some? &&
                         layers[ActiveLayerIndex(layers).value].activeFrame.Some?
    ensures r.Some? ==> var li := ActiveLayerIndex(layers).value;
                        r.value == layers[li].frames[layers[li].activeFrame.value]
  {
    match ActiveLayerIndex(layers)
    case None => None
    case Some(li) =>
      match layers[li].activeFrame
      case None => None
      case Some(k) => Some(layers[li].frames[k])
  }

  // ----- Duplication of visible keyframes -----

  /**
   * The position of the keyframe visible at frame t: the last keyframe whose
   * number is at most t; None before the first keyframe.
   */
  function VisibleKey(frames: seq<Frame>, t: int): (r: Option<nat>)
    ensures r.Some? ==> r.value < |frames| && frames[r.value].frameNumber <= t &&
                        forall j :: r.value < j < |frames| ==> frames[j].frameNumber > t
    ensures r.None? ==> forall j :: 0 <= j < |frames| ==> frames[j].frameNumber > t
  {
    if frames == [] then None
    else if frames[|frames| - 1].frameNumber <= t then Some(|frames| - 1)
    else VisibleKey(frames[..|frames| - 1], t)
  }

  /** The copy wanted at target t, if any: the visible keyframe, unless it is already on t. */
  function DuplicateEntry(frames: seq<Frame>, t: int): seq<(Frame, int)> {
    match VisibleKey(frames, t)
    case None => []
    case Some(k) => if frames[k].frameNumber < t then [(frames[k], t)] else []
  }

  /** The intended result of `gp_compute_list_of_frames_to_duplicate`, target by target. */
  function DuplicatePlan(frames: seq<Frame>, targets: seq<int>): seq<(Frame, int)> {
    if targets == [] then []
    else DuplicatePlan(frames, targets[..|targets| - 1]) + DuplicateEntry(frames, targets[|targets| - 1])
  }

  lemma {:induction false} DuplicatePlanConcat(frames: seq<Frame>, a: seq<int>, b: seq<int>)
    ensures DuplicatePlan(frames, a + b) == DuplicatePlan(frames, a) + DuplicatePlan(frames, b)
  {
    if b == [] {
      assert a + b == a;
    } else {
      assert (a + b)[..|a + b| - 1] == a + b[..|b| - 1];
      DuplicatePlanConcat(frames, a, b[..|b| - 1]);
    }
  }

  /**
   * A pair (f, t) is planned exactly when t is a target, f is the keyframe
   * visible at t, and f lies strictly before t.
   */
  lemma {:induction false} DuplicatePlanEntries(frames: seq<Frame>, targets: seq<int>, f: Frame, t: int)
    ensures (f, t) in DuplicatePlan(frames, targets) <==>
      t in targets && VisibleKey(frames, t).Some? &&
      f == frames[VisibleKey(frames, t).value] && f.frameNumber < t
  {
    if targets != [] {
      var prefix := targets[..|targets| - 1];
      DuplicatePlanEntries(frames, prefix, f, t);
      assert targets == prefix + [targets[|targets| - 1]];
    }
  }

  /**
   * No copy is planned on a target before the first keyframe or on a target
   * that already holds a keyframe, and none at all on a layer without keyframes.
   */
  lemma DuplicatePlanSkips(frames: seq<Frame>, targets: seq<int>, t: int)
    requires StrictlyAscending(frames)
    requires frames == [] || t < frames[0].frameNumber ||
             exists k :: 0 <= k < |frames| && frames[k].frameNumber == t
    ensures forall f :: (f, t) !in DuplicatePlan(frames, targets)
  {
    forall f ensures (f, t) !in DuplicatePlan(frames, targets) {
      DuplicatePlanEntries(frames, targets, f, t);
    }
  }

  /** The plan lists copies in target order. */
  lemma {:induction false} DuplicatePlanOrder(frames: seq<Frame>, targets: seq<int>)
    requires Ascending(targets)
    ensures forall i, j :: 0 <= i < j < |DuplicatePlan(frames, targets)| ==>
      DuplicatePlan(frames, targets)[i].1 <= DuplicatePlan(frames, targets)[j].1
  {
    if targets != [] {
      var prefix := targets[..|targets| - 1];
      var last := targets[|targets| - 1];
      DuplicatePlanOrder(frames, prefix);
      var p := DuplicatePlan(frames, prefix);
      forall e | e in p ensures e.1 <= last {
        DuplicatePlanEntries(frames, prefix, e.0, e.1);
      }
    }
  }

  /** The keyframe visible at t, located from a position j of the two-pointer walk. */
  lemma VisibleAt(frames: seq<Frame>, j: nat, t: int)
    requires StrictlyAscending(frames)
    requires j < |frames| && frames[j].frameNumber <= t
    requires j + 1 == |frames| || t < frames[j + 1].frameNumber
    ensures VisibleKey(frames, t) == Some(j)
  {
    forall k | j < k < |frames|
      ensures frames[k].frameNumber > t
    {
      if k > j + 1 {
        assert frames[j + 1].frameNumber < frames[k].frameNumber;
      }
    }
  }

  /**
   * The two-pointer walk of animation/core.py:158-182, started at target
   * position `start`, at or after the first keyframe.
   */
  method MergeFromTarget(frames: seq<Frame>, targets: seq<int>, start: nat) returns (plan: seq<(Frame, int)>)
    requires StrictlyAscending(frames) && Ascending(targets)
    requires |frames| > 0 && start <= |targets|
    requires start < |targets| ==> frames[0].frameNumber <= targets[start]
    ensures plan == DuplicatePlan(frames, targets[start..])
  {
    plan := [];
    var i: nat, j: nat := start, 0;
    while i < |targets|
      invariant WalkInv(frames, targets, start, i, j, plan)
      decreases |targets| - i + |frames| - j
    {
      i, j, plan := WalkStep(frames, targets, start, i, j, plan);
    }
    assert targets[start..i] == targets[start..];
  }

  /**
   * The walk's invariant: the targets from `start` up to `i` are planned, and
   * keyframe `j` lies at or before target `i`.
   */
  ghost predicate WalkInv(frames: seq<Frame>, targets: seq<int>, start: nat, i: nat, j: nat, plan: seq<(Frame, int)>) {
    StrictlyAscending(frames) && Ascending(targets) &&
    start <= i <= |targets| && j < |frames| &&
    (i < |targets| ==> frames[j].frameNumber <= targets[i]) &&
    plan == DuplicatePlan(frames, targets[start..i])
  }

  /**
   * One pass of the walk's loop body (animation/core.py:160-182): a target
   * already holding a keyframe is skipped; a target before the next keyframe
   * (or after the last one) gets a copy of the current keyframe; otherwise the
   * walk moves on to the next keyframe.
   */
  method WalkStep(frames: seq<Frame>, targets: seq<int>, start: nat, i: nat, j: nat, plan: seq<(Frame, int)>)
      returns (i': nat, j': nat, plan': seq<(Frame, int)>)
    requires WalkInv(frames, targets, start, i, j, plan) && i < |targets|
    ensures WalkInv(frames, targets, start, i', j', plan')
    ensures (i' == i + 1 && j' == j) || (i' == i && j' == j + 1)
  {
    var target := targets[i];
    var currentKey := frames[j].frameNumber;
    if target == currentKey {
      WalkSettle(frames, targets, start, i, j, plan);
      return i + 1, j, plan;
    }
    if j + 1 < |frames| {
      var nextKey := frames[j + 1].frameNumber;
      if target < nextKey {
        WalkSettle(frames, targets, start, i, j, plan);
        return i + 1, j, plan + [(frames[j], target)];
      } else {
        WalkNextKey(frames, targets, start, i, j, plan);
        return i, j + 1, plan;
      }
    } else {
      WalkSettle(frames, targets, start, i, j, plan);
      return i + 1, j, plan + [(frames[j], target)];
    }
  }

  /** Target `i` is settled by keyframe `j`: it is planned when it lies strictly after that keyframe. */
  lemma WalkSettle(frames: seq<Frame>, targets: seq<int>, start: nat, i: nat, j: nat, plan: seq<(Frame, int)>)
    requires WalkInv(frames, targets, start, i, j, plan) && i < |targets|
    requires j + 1 == |frames| || targets[i] < frames[j + 1].frameNumber
    ensures WalkInv(frames, targets, start, i + 1, j,
      plan + if frames[j].frameNumber < targets[i] then [(frames[j], targets[i])] else [])
  {
    MergeStep(frames, targets, start, i, j);
  }

  /** Target `i` lies at or after the next keyframe: moving to it keeps the invariant. */
  lemma WalkNextKey(frames: seq<Frame>, targets: seq<int>, start: nat, i: nat, j: nat, plan: seq<(Frame, int)>)
    requires WalkInv(frames, targets, start, i, j, plan) && i < |targets|
    requires j + 1 < |frames| && frames[j + 1].frameNumber <= targets[i]
    ensures WalkInv(frames, targets, start, i, j + 1, plan)
  {
  }

  /** One target of the walk: the keyframe at j is the one visible at targets[i]. */
  lemma MergeStep(frames: seq<Frame>, targets: seq<int>, start: nat, i: nat, j: nat)
    requires StrictlyAscending(frames)
    requires start <= i < |targets| && j < |frames| && frames[j].frameNumber <= targets[i]
    requires j + 1 == |frames| || targets[i] < frames[j + 1].frameNumber
    requires Ascending(targets)
    ensures DuplicatePlan(frames, targets[start..i + 1]) ==
      DuplicatePlan(frames, targets[start..i]) +
      (if frames[j].frameNumber < targets[i] then [(frames[j], targets[i])] else [])
    ensures i + 1 < |targets| ==> frames[j].frameNumber <= targets[i + 1]
  {
    EntryAt(frames, j, targets[i]);
    DuplicatePlanSnoc(frames, targets, start, i);
  }

  lemma EntryAt(frames: seq<Frame>, j: nat, t: int)
    requires StrictlyAscending(frames)
    requires j < |frames| && frames[j].frameNumber <= t
    requires j + 1 == |frames| || t < frames[j + 1].frameNumber
    ensures DuplicateEntry(frames, t) == if frames[j].frameNumber < t then [(frames[j], t)] else []
  {
    VisibleAt(frames, j, t);
  }

  lemma DuplicatePlanSnoc(frames: seq<Frame>, targets: seq<int>, start: nat, i: nat)
    requires start <= i < |targets|
    ensures DuplicatePlan(frames, targets[start..i + 1]) ==
      DuplicatePlan(frames, targets[start..i]) + DuplicateEntry(frames, targets[i])
  {
    var s := targets[start..i + 1];
    assert s[..|s| - 1] == targets[start..i];
    assert s[|s| - 1] == targets[i];
  }

  /** The skip loop of line 155 runs past the end: every target lies before the first keyframe. */
  ghost predicate SkipLoopOverruns(frames: seq<Frame>, targets: seq<int>) {
    |frames| > 0 && forall i :: 0 <= i < |targets| ==> targets[i] < frames[0].frameNumber
  }

  lemma {:induction false} DuplicatePlanBeforeFirst(frames: seq<Frame>, targets: seq<int>)
    requires StrictlyAscending(frames) && |frames| > 0
    requires forall i :: 0 <= i < |targets| ==> targets[i] < frames[0].frameNumber
    ensures DuplicatePlan(frames, targets) == []
  {
    if targets != [] {
      DuplicatePlanBeforeFirst(frames, targets[..|targets| - 1]);
      assert VisibleKey(frames, targets[|targets| - 1]).None?;
    }
  }

  /** Skipping the targets before the first keyframe and walking the rest plans every target. */
  lemma SkipThenMerge(frames: seq<Frame>, targets: seq<int>, i: nat)
    requires StrictlyAscending(frames) && |frames| > 0 && i <= |targets|
    requires forall k :: 0 <= k < i ==> targets[k] < frames[0].frameNumber
    ensures DuplicatePlan(frames, targets[i..]) == DuplicatePlan(frames, targets)
  {
    var skipped, rest := targets[..i], targets[i..];
    assert skipped + rest == targets;
    DuplicatePlanBeforeFirst(frames, skipped);
    DuplicatePlanConcat(frames, skipped, rest);
    assert DuplicatePlan(frames, skipped) + DuplicatePlan(frames, rest) == DuplicatePlan(frames, rest);
  }

  /**
   * `gp_compute_list_of_frames_to_duplicate` as written: its skip loop reads
   * `frame_numbers[i]` without a bound check, so it raises IndexError when no
   * target is at or after the first keyframe (an empty target list included);
   * otherwise it returns the plan.
   */
  method ComputeListOfFramesToDuplicateAsWritten(frames: seq<Frame>, targets: seq<int>)
      returns (r: Result<seq<(Frame, int)>, PyException>)
    requires StrictlyAscending(frames) && Ascending(targets)
    ensures r.Err? <==> SkipLoopOverruns(frames, targets)
    ensures r.Err? ==> r.error == IndexError
    ensures r.Ok? ==> r.value == DuplicatePlan(frames, targets)
  {
    if |frames| == 0 {
      DuplicatePlanEmptyLayer(targets);
      return Ok([]);
    }
    var i := 0;
    while true
      invariant 0 <= i <= |targets|
      invariant forall k :: 0 <= k < i ==> targets[k] < frames[0].frameNumber
      decreases |targets| - i
    {
      if i == |targets| {
        // `frame_numbers[i]` is read one past the end
        return Err(IndexError);
      }
      if targets[i] >= frames[0].frameNumber {
        break;
      }
      i := i + 1;
    }
    var plan := MergeFromTarget(frames, targets, i);
    SkipThenMerge(frames, targets, i);
    return Ok(plan);
  }

  /** Layer with one keyframe on frame 3 and targets 1 and 2, or no target at all. */
  lemma SkipLoopOverrunExamples()
    ensures var frames := [Frame(3, false, false, Keyframe)];
      SkipLoopOverruns(frames, [1, 2]) && DuplicatePlan(frames, [1, 2]) == [] &&
      SkipLoopOverruns(frames, []) && DuplicatePlan(frames, []) == []
  {
    var frames := [Frame(3, false, false, Keyframe)];
    assert VisibleKey(frames, 1).None? && VisibleKey(frames, 2).None?;
    assert [1, 2][..1] == [1];
  }

  /**
   * `gp_compute_list_of_frames_to_duplicate` with the skip loop bounded by the
   * number of targets: the pairs (visible keyframe, target) for every target
   * that has a visible keyframe strictly before it.
   */
  method ComputeListOfFramesToDuplicate(frames: seq<Frame>, targets: seq<int>)
      returns (plan: seq<(Frame, int)>)
    requires StrictlyAscending(frames) && Ascending(targets)
    ensures plan == DuplicatePlan(frames, targets)
  {
    if |frames| == 0 {
      DuplicatePlanEmptyLayer(targets);
      return [];
    }
    var i := 0;
    while i < |targets| && targets[i] < frames[0].frameNumber
      invariant 0 <= i <= |targets|
      invariant forall k :: 0 <= k < i ==> targets[k] < frames[0].frameNumber
    {
      i := i + 1;
    }
    plan := MergeFromTarget(frames, targets, i);
    SkipThenMerge(frames, targets, i);
  }

  lemma {:induction false} DuplicatePlanEmptyLayer(targets: seq<int>)
    ensures DuplicatePlan([], targets) == []
  {
    if targets != [] {
      DuplicatePlanEmptyLayer(targets[..|targets| - 1]);
    }
  }

  /** The keyframes `gp_create_new_duplicated_frames` adds for a plan. */
  function Copies(plan: seq<(Frame, int)>, keyframeType: KeyframeType): (r: seq<Frame>)
    ensures |r| == |plan|
    ensures forall i :: 0 <= i < |plan| ==>
      r[i] == plan[i].0.(frameNumber := plan[i].1, keyframeType := keyframeType)
  {
    seq(|plan|, i requires 0 <= i < |plan| => plan[i].0.(frameNumber := plan[i].1, keyframeType := keyframeType))
  }

  /**
   * `gp_create_new_duplicated_frames`: adds to the layer a copy of each planned
   * keyframe, moved to its target and given the requested keyframe type; the
   * other layers are untouched. The plan comes from the computation as
   * written, so when its skip loop overruns the call raises IndexError before
   * any keyframe is added.
   */
  method CreateNewDuplicatedFrames(gp: GreasePencil, li: nat, targets: seq<int>, keyframeType: KeyframeType)
      returns (error: Option<PyException>)
    requires li < |gp.layers|
    requires StrictlyAscending(gp.layers[li].frames) && Ascending(targets)
    modifies gp
    ensures error.Some? <==> SkipLoopOverruns(old(gp.layers[li].frames), targets)
    ensures error.Some? ==> error.value == IndexError && gp.layers == old(gp.layers)
    ensures error.None? ==> gp.layers == old(gp.layers)[li := old(gp.layers[li]).(frames :=
      old(gp.layers[li].frames) + Copies(DuplicatePlan(old(gp.layers[li].frames), targets), keyframeType))]
  {
    var layers := gp.layers;
    var layer := gp.layers[li];
    var computed := ComputeListOfFramesToDuplicateAsWritten(layer.frames, targets);
    if computed.Err? {
      return Some(computed.error);
    }
    var plan := computed.value;
    var added: seq<Frame> := [];
    assert layer.frames + added == layer.frames;
    assert layers[li := layer.(frames := layer.frames + added)] == layers;
    var k := 0;
    while k < |plan|
      invariant 0 <= k <= |plan|
      invariant added == Copies(plan[..k], keyframeType)
      invariant gp.layers == layers[li := layer.(frames := layer.frames + added)]
    {
      var (source, target) := plan[k];
      var copy := source.(frameNumber := target, keyframeType := keyframeType);
      assert Copies(plan[..k + 1], keyframeType) == Copies(plan[..k], keyframeType) + [copy];
      added := added + [copy];
      gp.layers := layers[li := layer.(frames := layer.frames + added)];
      k := k + 1;
    }
    assert plan[..k] == plan;
    return None;
  }

  // ----- Shifting -----

  /** `min(...)` of frame numbers. */
  function SeqMin(xs: seq<int>): (m: int)
    requires |xs| > 0
    ensures m in xs
    ensures forall x :: x in xs ==> m <= x
  {
    if |xs| == 1 then xs[0]
    else
      var m := SeqMin(xs[..|xs| - 1]);
      assert xs == xs[..|xs| - 1] + [xs[|xs| - 1]];
      if xs[|xs| - 1] < m then xs[|xs| - 1] else m
  }

  /**
   * The offset `shift_keyframes` applies, or None when it returns False: some
   * keyframe already lies below frameMin, the offset would push one below it
   * without permission to adjust, or the (adjusted) offset is zero.
   */
  function EffectiveOffset(nums: seq<int>, offset: int, frameMin: int, adjust: bool): Option<int>
    requires |nums| > 0
  {
    var m := SeqMin(nums);
    if m < frameMin then None
    else if m + offset < frameMin && !adjust then None
    else
      var off := if m + offset < frameMin then frameMin - m else offset;
      if off == 0 then None else Some(off)
  }

  function Shifted(nums: seq<int>, off: int): (r: seq<int>)
    ensures |r| == |nums|
    ensures forall i :: 0 <= i < |nums| ==> r[i] == nums[i] + off
  {
    seq(|nums|, i requires 0 <= i < |nums| => nums[i] + off)
  }

  lemma ShiftedMin(nums: seq<int>, off: int)
    requires |nums| > 0
    ensures SeqMin(Shifted(nums, off)) == SeqMin(nums) + off
  {
    var t := Shifted(nums, off);
    var i :| 0 <= i < |nums| && nums[i] == SeqMin(nums);
    assert t[i] in t;
    var j :| 0 <= j < |t| && t[j] == SeqMin(t);
    assert nums[j] in nums;
  }

  /**
   * What a shift promises: keyframes move by a non-zero offset, all by the same
   * amount, and none ends below frameMin; the requested offset is kept when it
   * respects frameMin, and otherwise, when adjusting, the earliest keyframe lands
   * exactly on frameMin. Nothing moves when a keyframe is already below frameMin
   * or when an out-of-bounds offset may not be adjusted.
   */
  lemma ShiftOutcome(nums: seq<int>, offset: int, frameMin: int, adjust: bool)
    requires |nums| > 0
    ensures SeqMin(nums) < frameMin ==> EffectiveOffset(nums, offset, frameMin, adjust).None?
    ensures SeqMin(nums) + offset < frameMin && !adjust ==> EffectiveOffset(nums, offset, frameMin, adjust).None?
    ensures SeqMin(nums) >= frameMin && SeqMin(nums) + offset >= frameMin && offset != 0 ==>
      EffectiveOffset(nums, offset, frameMin, adjust) == Some(offset)
    ensures EffectiveOffset(nums, offset, frameMin, adjust).Some? ==>
      var off := EffectiveOffset(nums, offset, frameMin, adjust).value;
      off != 0 &&
      SeqMin(Shifted(nums, off)) >= frameMin &&
      (forall i, j :: 0 <= i < |nums| && 0 <= j < |nums| ==>
        Shifted(nums, off)[i] - Shifted(nums, off)[j] == nums[i] - nums[j]) &&
      (SeqMin(nums) + offset < frameMin ==> adjust && SeqMin(Shifted(nums, off)) == frameMin)
  {
    var e := EffectiveOffset(nums, offset, frameMin, adjust);
    if e.Some? {
      ShiftedMin(nums, e.value);
    }
  }

  /** `min(keyframe_numbers)`. */
  method ArrayMin(a: array<int>) returns (minValue: int)
    requires a.Length > 0
    ensures minValue == SeqMin(a[..])
  {
    minValue := a[0];
    var k := 1;
    while k < a.Length
      invariant 1 <= k <= a.Length
      invariant minValue == SeqMin(a[..k])
    {
      assert a[..k + 1][..k] == a[..k];
      if a[k] < minValue {
        minValue := a[k];
      }
      k := k + 1;
    }
    assert a[..k] == a[..];
  }

  /**
   * `shift_keyframes` over the frame numbers of `keyframes`, changed in place.
   * The source requires a non-empty list (`min` of an empty list raises).
   */
  method ShiftKeyframes(a: array<int>, offset: int, frameMin: int, adjust: bool) returns (shifted: bool)
    requires a.Length > 0
    modifies a
    ensures shifted <==> EffectiveOffset(old(a[..]), offset, frameMin, adjust).Some?
    ensures shifted ==> a[..] == Shifted(old(a[..]), EffectiveOffset(old(a[..]), offset, frameMin, adjust).value)
    ensures !shifted ==> a[..] == old(a[..])
  {
    var minValue := ArrayMin(a);
    if minValue < frameMin {
      return false;
    }
    var off := offset;
    if minValue + off < frameMin {
      if adjust {
        off := frameMin - minValue;
      } else {
        return false;
      }
    }
    if off == 0 {
      return false;
    }
    OffsetAll(a, off);
    return true;
  }

  /** The loop of `shift_keyframes` that moves every keyframe by `off`. */
  method OffsetAll(a: array<int>, off: int)
    modifies a
    ensures a[..] == Shifted(old(a[..]), off)
  {
    var k := 0;
    while k < a.Length
      invariant 0 <= k <= a.Length
      invariant forall i :: 0 <= i < k ==> a[i] == old(a[i]) + off
      invariant forall i :: k <= i < a.Length ==> a[i] == old(a[i])
    {
      a[k] := a[k] + off;
      k := k + 1;
    }
  }

  /** A keyframe moved by `off` when it lies in [lo, hi]. */
  function OffsetFrame(f: Frame, lo: int, hi: int, off: int): Frame {
    if lo <= f.frameNumber <= hi then f.(frameNumber := f.frameNumber + off) else f
  }

  function OffsetFrames(fs: seq<Frame>, lo: int, hi: int, off: int): (r: seq<Frame>)
    ensures |r| == |fs|
    ensures forall k :: 0 <= k < |fs| ==> r[k] == OffsetFrame(fs[k], lo, hi, off)
  {
    seq(|fs|, k requires 0 <= k < |fs| => OffsetFrame(fs[k], lo, hi, off))
  }

  /** The layers after the keyframes in [lo, hi] of the layers matching `filter` moved by `off`. */
  function OffsetLayers(layers: seq<Layer>, filter: set<LayerTrait>, lo: int, hi: int, off: int): (r: seq<Layer>)
    ensures |r| == |layers|
    ensures forall i :: 0 <= i < |layers| ==>
      r[i] == if LayerMatches(layers[i], filter)
              then layers[i].(frames := OffsetFrames(layers[i].frames, lo, hi, off))
              else layers[i]
  {
    seq(|layers|, i requires 0 <= i < |layers| =>
      if LayerMatches(layers[i], filter)
      then layers[i].(frames := OffsetFrames(layers[i].frames, lo, hi, off))
      else layers[i])
  }

  /** The offset `shift_gp_keyframes` applies to the keyframes after frameStart, or None. */
  function GpShiftOffset(layers: seq<Layer>, filter: set<LayerTrait>, frameStart: int, offset: int, adjust: bool): Option<int> {
    var keys := GetGpKeyframes(layers, filter, {}, frameStart + 1, MAXSIZE);
    if keys == [] then None else EffectiveOffset(FrameNumbers(keys), offset, frameStart + 1, adjust)
  }

  /**
   * `shift_gp_keyframes`: moves the keyframes after frameStart (up to
   * `sys.maxsize`) of the matching layers by the effective offset and returns
   * them, sorted and moved; returns nothing and changes nothing when no shift
   * applies.
   */
  method ShiftGpKeyframes(gp: GreasePencil, frameStart: int, offset: int, adjust: bool,
                          onlyActive: bool, onlyUnlocked: bool, onlySelected: bool)
      returns (moved: seq<Frame>)
    modifies gp
    ensures var filter := LayerOptionsToTraits(onlyActive, onlyUnlocked, onlySelected);
      var keys := GetGpKeyframes(old(gp.layers), filter, {}, frameStart + 1, MAXSIZE);
      match GpShiftOffset(old(gp.layers), filter, frameStart, offset, adjust)
      case None => moved == [] && gp.layers == old(gp.layers)
      case Some(off) =>
        moved == OffsetFrames(keys, frameStart + 1, MAXSIZE, off) &&
        gp.layers == OffsetLayers(old(gp.layers), filter, frameStart + 1, MAXSIZE, off)
  {
    var filter := LayerOptionsToTraits(onlyActive, onlyUnlocked, onlySelected);
    var keys := GetGpKeyframes(gp.layers, filter, {}, frameStart + 1, MAXSIZE);
    if keys == [] {
      return [];
    }
    var off := ShiftQueried(keys, offset, frameStart + 1, adjust);
    if off.None? {
      return [];
    }
    gp.layers := OffsetLayers(gp.layers, filter, frameStart + 1, MAXSIZE, off.value);
    moved := OffsetFrames(keys, frameStart + 1, MAXSIZE, off.value);
  }

  /**
   * `shift_keyframes` on the queried keyframes (animation/core.py:280-282):
   * shifts their frame numbers and reads back the offset the first one moved by.
   */
  method ShiftQueried(keys: seq<Frame>, offset: int, frameMin: int, adjust: bool) returns (off: Option<int>)
    requires keys != []
    ensures off == EffectiveOffset(FrameNumbers(keys), offset, frameMin, adjust)
  {
    var numbers := FrameNumbers(keys);
    var nums := new int[|numbers|](i requires 0 <= i < |numbers| => numbers[i]);
    assert nums[..] == numbers;
    ghost var e := EffectiveOffset(numbers, offset, frameMin, adjust);
    var res := ShiftKeyframes(nums, offset, frameMin, adjust);
    if !res {
      return None;
    }
    assert nums[..] == Shifted(numbers, e.value);
    assert nums[..][0] == numbers[0] + e.value;
    off := Some(nums[0] - numbers[0]);
  }

  /**
   * Shifting keeps every layer's keyframes in strictly ascending order: a moved
   * keyframe never lands on or before a keyframe left in place at or before
   * frameStart, because the effective offset keeps the earliest moved keyframe
   * after frameStart. (Frame numbers are assumed to stay within `sys.maxsize`.)
   */
  lemma ShiftKeepsOrder(layers: seq<Layer>, filter: set<LayerTrait>, frameStart: int, offset: int, adjust: bool)
    requires forall i :: 0 <= i < |layers| ==> StrictlyAscending(layers[i].frames)
    requires forall i, k :: 0 <= i < |layers| && 0 <= k < |layers[i].frames| ==>
      layers[i].frames[k].frameNumber <= MAXSIZE
    requires GpShiftOffset(layers, filter, frameStart, offset, adjust).Some?
    ensures var r := OffsetLayers(layers, filter, frameStart + 1, MAXSIZE,
                                  GpShiftOffset(layers, filter, frameStart, offset, adjust).value);
      forall i :: 0 <= i < |r| ==> StrictlyAscending(r[i].frames)
  {
    var lo := frameStart + 1;
    var keys := GetGpKeyframes(layers, filter, {}, lo, MAXSIZE);
    var nums := FrameNumbers(keys);
    var off := GpShiftOffset(layers, filter, frameStart, offset, adjust).value;
    ShiftOutcome(nums, offset, lo, adjust);
    ShiftedMin(nums, off);
    var r := OffsetLayers(layers, filter, lo, MAXSIZE, off);
    forall i | 0 <= i < |r| ensures StrictlyAscending(r[i].frames) {
      if LayerMatches(layers[i], filter) {
        var fs := layers[i].frames;
        forall k | 0 <= k < |fs| && lo <= fs[k].frameNumber
          ensures fs[k].frameNumber + off >= lo
        {
          MovedKeyInQuery(layers, filter, lo, i, k);
        }
        OffsetFramesAscending(fs, lo, off);
      }
    }
  }

  /** A keyframe after frameStart on a matching layer is one of the queried keyframes. */
  lemma MovedKeyInQuery(layers: seq<Layer>, filter: set<LayerTrait>, lo: int, i: nat, k: nat)
    requires i < |layers| && LayerMatches(layers[i], filter)
    requires k < |layers[i].frames| && lo <= layers[i].frames[k].frameNumber <= MAXSIZE
    ensures GetGpKeyframes(layers, filter, {}, lo, MAXSIZE) != []
    ensures layers[i].frames[k].frameNumber >= SeqMin(FrameNumbers(GetGpKeyframes(layers, filter, {}, lo, MAXSIZE)))
  {
    var keys := GetGpKeyframes(layers, filter, {}, lo, MAXSIZE);
    var f := layers[i].frames[k];
    var l := layers[i];
    assert FrameMatches(f, {}, lo, MAXSIZE);
    assert l in layers && LayerMatches(l, filter) && f in l.frames;
    assert f in keys;
    var j :| 0 <= j < |keys| && keys[j] == f;
    var nums := FrameNumbers(keys);
    assert nums[j] == f.frameNumber && nums[j] in nums;
  }

  /** Moving the keyframes from lo on by an offset that keeps them at or after lo keeps their order. */
  lemma OffsetFramesAscending(fs: seq<Frame>, lo: int, off: int)
    requires StrictlyAscending(fs)
    requires forall k :: 0 <= k < |fs| ==> fs[k].frameNumber <= MAXSIZE
    requires forall k :: 0 <= k < |fs| && lo <= fs[k].frameNumber ==> fs[k].frameNumber + off >= lo
    ensures StrictlyAscending(OffsetFrames(fs, lo, MAXSIZE, off))
  {
  }
}
