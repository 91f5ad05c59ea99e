# 2D animation add-on: a Dafny model of its rule sets

This project models the host-independent rules of the SPA Studios 2D animation
add-on for Blender and proves their properties. The host's objects become plain
records (keyframes, layers, materials, bones), or classes where the add-on
changes them in place (the grease pencil datablock, the scene, the window
manager, the blend data, the palette registry, the armature object).

- **Keyframes** (`keyframes.dfy`, `gp_data.dfy`) covers the dopesheet queries of
  `animation/core.py`:
  - trait filters over layers and keyframes;
  - the sorted keyframe query;
  - the two-pointer walk that decides which keyframe to copy to which target
    frame;
  - the clamped shift of keyframes. It works in place on an array of frame
    numbers.
- **KeyframeOps** (`keyframe_ops.dfy`) covers the operators and handlers of
  `animation/ops.py`:
  - the flip to the previous or next keyframe;
  - the lightbox (onion-skin tag) edit;
  - the shift operator's absolute offset;
  - the current keyframe's duration;
  - the pin-to-frame display;
  - the stick-to-frame undo.
- **Materials**, **MaterialCleanup** and **Palettes** (`materials.dfy`,
  `material_cleanup.dfy`, `palettes.dfy`) cover `materials/core.py`:
  - palette names (the text before the first '/');
  - the similarity of grease pencil materials;
  - the cleanup of duplicated materials;
  - the insertion-ordered palette registry, with the default palette "-" first;
  - the assignment of a palette's materials to a datablock;
  - the index mapping of the `material_palette` enum.
- **PaletteUI** (`palette_ui.dfy`) models the slot filter of the palette
  material list in `materials/ui.py`.
- **Pegs** (`pegs.dfy`) covers the pegs of `animation/pegs/core.py`. A peg is a
  bone group holding a `.root_` bone and a `.offset_` bone. The module models
  the lookup of a peg's bones, the layers parented to a peg, the active-index
  getters and setter, peg keying and peg renaming.
- **OrderedGroups** and **Seqs** (`ordered_groups.dfy`, `seqs.dfy`) are shared
  helpers:
  - the `if k not in d: d[k] = []; d[k].append(x)` idiom over an
    insertion-ordered dict;
  - list comprehensions with a condition;
  - Python's stable `sorted`;
  - first-index search.
- **Wrappers** (`wrappers.dfy`) holds `Option`, `Result`, and the Python
  exceptions the code can raise.

Modelling conventions:
- A material's identity is its position in `bpy.data.materials`.
  `batch_remove` adds positions to a `removed` set, so positions stay stable.
- A material slot holds a material position or `None`.
- Grease pencil material settings are compared as exact values, float colours
  included.
- `remove_auto_numbering_suffix` is not part of this model. It is the
  parameter `shortName`.
- Whether `bpy.data` is a `BlendData` is the parameter `ready`.
- The add-on preference `anim_flipping_undo_mode == "STICK_TO_FRAME"` and the
  edit-mode test of the active object are boolean parameters.
- Pose bones and armature bones are one list, with positions as identities.
  The host keeps pose bones and armature bones paired by name.

## Model

| member | source | states |
|---|---|---|
| GreasePencilData.KeyframeTypeIndex | spa_anim2D/animation/core.py:15-21 | A keyframe type's position in the `keyframe_types` dict is one of the five mask slots. |
| GreasePencilData.ActiveLayerIndex | spa_anim2D/animation/core.py:134 | `gp.layers.active` is the first layer flagged active, or none when no layer is. |
| Keyframes.LayerOptionsToTraits | spa_anim2D/animation/core.py:41-58 | The filter holds ACTIVE, UNLOCKED and SELECTED exactly when the matching option is true. It is NONE exactly when all three options are false. |
| Keyframes.FrameOptionsToTraits | spa_anim2D/animation/core.py:61-75 | The filter holds SELECTED and TAG exactly when the matching option is true. It is NONE when both options are false. |
| Keyframes.GetGpLayers | spa_anim2D/animation/core.py:78-95 | A layer is kept exactly when it meets every requested trait (active, unlocked, selected). With NONE every layer is kept, in order. |
| Keyframes.GetGpLayersConcat | spa_anim2D/animation/core.py:87-95 | The layer filter keeps layer order: filtering two stacked lists is filtering each one. |
| Keyframes.ActiveFilterIsActiveLayer | spa_anim2D/animation/core.py:87-91 | With at most one active layer, as the host keeps it, the ACTIVE filter keeps exactly `gp.layers.active`, or nothing when there is no active layer. |
| Keyframes.CollectFramesMembers | spa_anim2D/animation/core.py:116-126 | The accumulation loop gathers exactly the frames of the kept layers that lie in [frame_min, frame_max] and meet the SELECTED and TAG conditions. |
| Keyframes.GetGpKeyframes | spa_anim2D/animation/core.py:98-128 | The result holds exactly the matching frames of the matching layers, sorted by ascending frame number. It is a permutation of what the loop gathered. |
| Keyframes.GetActiveGpKeyframe | spa_anim2D/animation/core.py:131-134 | There is a result exactly when there is an active layer that has an active frame. The result is that layer's active frame. |
| Keyframes.VisibleKey | spa_anim2D/animation/core.py:137-182 | The keyframe visible at t is the last keyframe numbered at most t. There is none when every keyframe lies after t. |
| Keyframes.DuplicatePlanEntries | spa_anim2D/animation/core.py:168-182 | (f, t) is planned exactly when t is a target, f is the keyframe visible at t, and f lies strictly before t. |
| Keyframes.DuplicatePlanSkips | spa_anim2D/animation/core.py:148-149 | No copy is planned on an empty layer, before the first keyframe, or on a frame that already holds a keyframe. |
| Keyframes.DuplicatePlanOrder | spa_anim2D/animation/core.py:158-182 | With ascending targets, copies are listed in target order. |
| Keyframes.DuplicatePlanConcat | spa_anim2D/animation/core.py:158-182 | Planning two runs of targets one after the other is planning the concatenation. |
| Keyframes.MergeFromTarget | spa_anim2D/animation/core.py:158-182 | The two-pointer walk, started at or after the first keyframe, returns exactly the plan of the remaining targets. |
| Keyframes.WalkStep | spa_anim2D/animation/core.py:159-182 | One pass of the merge loop: either the target index or the keyframe index advances by exactly one. The plan stays the duplicate plan of the targets consumed so far, and the current keyframe stays at or before the next target. |
| Keyframes.WalkSettle | spa_anim2D/animation/core.py:164-182 | When the next keyframe lies after the target, or there is none, the target is settled: a pair (current keyframe, target) is appended exactly when the keyframe lies strictly before the target. The merge invariant holds for the next target. |
| Keyframes.DuplicatePlanBeforeFirst | spa_anim2D/animation/core.py:154-156 | Targets before the first keyframe contribute no copy, so skipping them loses nothing. |
| Keyframes.ComputeListOfFramesToDuplicateAsWritten | spa_anim2D/animation/core.py:137-184 | As written: IndexError exactly when the layer has keyframes and no target is at or after the first one (no targets included). Otherwise the result is the plan. |
| Keyframes.SkipLoopOverrunExamples | spa_anim2D/animation/core.py:155 | Given a keyframe on frame 3, the targets [1, 2] and the empty target list both overrun the skip loop, although both plans are empty. |
| Keyframes.ComputeListOfFramesToDuplicate | spa_anim2D/animation/core.py:137-184 | With the skip loop bounded, every input returns the plan of the targets. |
| Keyframes.DuplicatePlanEmptyLayer | spa_anim2D/animation/core.py:148-149 | A layer without keyframes gets no copies. |
| Keyframes.Copies | spa_anim2D/animation/core.py:202-205 | Each planned pair gives a copy of its keyframe, moved to the target and given the requested type. |
| Keyframes.CreateNewDuplicatedFrames | spa_anim2D/animation/core.py:187-205 | IndexError exactly when the as-written skip loop overruns, with every layer unchanged. Otherwise the layer gains exactly the copies of the plan, in plan order, and the other layers are untouched. |
| Keyframes.SeqMin | spa_anim2D/animation/core.py:223 | The minimum is an element and bounds every element from below. |
| Keyframes.ShiftedMin | spa_anim2D/animation/core.py:241-242 | Shifting every frame by the same offset moves the minimum by that offset. |
| Keyframes.ArrayMin | spa_anim2D/animation/core.py:223 | The smallest frame number of a non-empty keyframe array. |
| Keyframes.OffsetAll | spa_anim2D/animation/core.py:240-242 | Every frame number in the array is moved by the offset, in place and in order. |
| Keyframes.ShiftOutcome | spa_anim2D/animation/core.py:208-244 | There is no shift when a keyframe lies below frame_min, or when min + offset < frame_min and adjusting is off. A successful shift is non-zero and uniform, so spacing is kept. It keeps the offset when that respects frame_min, keeps every keyframe at frame_min or later, and, when adjusted, puts the earliest keyframe exactly on frame_min. |
| Keyframes.ShiftKeyframes | spa_anim2D/animation/core.py:208-244 | Returns true exactly when the effective offset exists. Then every frame number moves by it; otherwise the array is unchanged. |
| Keyframes.ShiftQueried | spa_anim2D/animation/core.py:280-282 | Running the shift on the queried keyframes applies exactly the effective offset: none when the shift is refused, otherwise the requested offset or the offset adjusted up to the minimum frame. |
| Keyframes.OffsetFrames | spa_anim2D/animation/core.py:241-242 | Exactly the keyframes in [lo, hi] move by the offset; the others stay. |
| Keyframes.OffsetLayers | spa_anim2D/animation/core.py:247-284 | Only the keyframes on layers matching the filter move; other layers are unchanged. |
| Keyframes.ShiftGpKeyframes | spa_anim2D/animation/core.py:247-284 | Without a shift nothing changes and the result is empty. Otherwise the keyframes after frame_start on matching layers move by the effective offset, and the moved keyframes are returned in ascending order. |
| Keyframes.ShiftKeepsOrder | spa_anim2D/animation/core.py:247-284 | After a shift, every layer's keyframes are still strictly ascending: no moved keyframe lands on or before one left in place. |
| Keyframes.MovedKeyInQuery | spa_anim2D/animation/core.py:272-278 | A keyframe after frame_start on a matching layer is among the queried keyframes, so it is at least their minimum. |
| Keyframes.OffsetFramesAscending | spa_anim2D/animation/core.py:241-242 | Moving the keyframes from lo on by an offset that keeps them at lo or later keeps a layer strictly ascending. |
| KeyframeOps.Scene.constructor | spa_anim2D/animation/ops.py:281-284 | A scene holds the given current frame, preview range and preview flag, which the flip reads, and the given shifted-frames display setting. |
| KeyframeOps.WindowManager.constructor | spa_anim2D/animation/ops.py:432-445 | The window manager starts with the registered defaults: unpinned and pinned frame 0. The last edit frame starts at -1, its default registered at line 609. |
| KeyframeOps.FlipLayers | spa_anim2D/animation/ops.py:263-267 | VISIBLE mode takes exactly the non-hidden layers. ACTIVE mode takes the active layer, and raises AttributeError when there is none. |
| KeyframeOps.Chain | spa_anim2D/animation/ops.py:273-275 | The chained frames are exactly the frames of the chosen layers. |
| KeyframeOps.FlipCandidates | spa_anim2D/animation/ops.py:269-287 | A frame is a candidate exactly when it belongs to a chosen layer and its type is allowed by the mask (when filtering is on). When both preview flags are on, it must also lie in the inclusive preview range. |
| KeyframeOps.FirstBeyond | spa_anim2D/animation/ops.py:301-309 | `next(...)` finds the first frame strictly beyond the current one in the flip direction, or none when there is none. |
| KeyframeOps.FlipTargetSpec | spa_anim2D/animation/ops.py:289-315 | A target is always a candidate's frame. RIGHT goes to the smallest candidate after the current frame; LEFT goes to the largest before it. Without such a candidate, loop goes to the minimum (RIGHT) or maximum (LEFT). Without loop, or without any candidate, the flip is cancelled. |
| KeyframeOps.SortedNoLater | spa_anim2D/animation/ops.py:294-296 | In the flip's sort order, an earlier keyframe is no later in the flip direction. |
| KeyframeOps.FirstBeyondNearest | spa_anim2D/animation/ops.py:301-309 | In the list sorted along the flip direction, the first keyframe beyond the current frame is no later than any other keyframe beyond it, so it is the nearest one. |
| KeyframeOps.SortedHeadNoLater | spa_anim2D/animation/ops.py:294-305 | The head of the sorted list, which is the loop fallback, is the earliest keyframe in the flip direction. |
| KeyframeOps.FlipKeyframe | spa_anim2D/animation/ops.py:293-312 | The keyframe chosen after sorting finds a target exactly when the flip specification does, and its frame number is that target. |
| KeyframeOps.KeyframesFlip | spa_anim2D/animation/ops.py:260-317 | The current frame becomes the flip target and the result is FINISHED. Without a target the result is CANCELLED and the frame is unchanged. Without an active layer in ACTIVE mode the result is AttributeError. |
| KeyframeOps.LightboxFilter | spa_anim2D/animation/ops.py:200-214 | ADD filters selected keyframes; REMOVE filters selected and tagged ones; CLEAR filters tagged ones. |
| KeyframeOps.RetagFrames | spa_anim2D/animation/ops.py:219-220 | Each keyframe is retagged on its own, in place. |
| KeyframeOps.RetagLayers | spa_anim2D/animation/ops.py:212-220 | Every layer's keyframes are retagged; nothing else about a layer changes. |
| KeyframeOps.RetagLayerFrames | spa_anim2D/animation/ops.py:219-220 | Retagging the frames of one layer, one frame at a time, gives the retag rule applied to every frame. |
| KeyframeOps.RetagRule | spa_anim2D/animation/ops.py:200-220 | ADD tags selected keyframes, REMOVE untags selected ones, and CLEAR untags all. Only the tag changes. |
| KeyframeOps.RetagOutOfRange | spa_anim2D/animation/ops.py:212-217 | Keyframes outside [0, sys.maxsize] are outside the query and never retagged. |
| KeyframeOps.LightboxEdit | spa_anim2D/animation/ops.py:199-223 | CANCELLED with no change when no keyframe matches the action's filter. Otherwise FINISHED, with exactly the matching keyframes retagged. |
| KeyframeOps.KeyframesShiftOperator.Setup | spa_anim2D/animation/ops.py:63-79 | The operator holds the frame numbers of the keyframes after the current frame on unlocked, optionally active or selected, layers. The first one is recorded as the initial value. |
| KeyframeOps.KeyframesShiftOperator.Execute | spa_anim2D/animation/ops.py:138-165 | The shift applies `offset - (first - initial)`, with the offset adjusted to stay after the current frame. FINISHED when keyframes moved; otherwise CANCELLED with nothing moved. |
| KeyframeOps.AbsoluteOffset | spa_anim2D/animation/ops.py:146-151 | The first keyframe ends at its initial frame plus `offset`, clamped to the frame after the current one, whether or not the shift happens. |
| KeyframeOps.GetCurrentKeyframeDuration | spa_anim2D/animation/ops.py:389-397 | 0 without an active keyframe. Otherwise it is the gap to the first active-layer keyframe after the active one, or 0 when none follows. On an ordered layer that is the gap to the next keyframe. |
| KeyframeOps.PinToFrameUpdate | spa_anim2D/animation/ops.py:423-431 | Pinning records the current frame and reassigns it, which re-runs the frame-change handler. The pinned rule then holds: the display is on exactly at the pinned frame, so it is on. Unpinning turns the display on. The scene frame is unchanged. |
| KeyframeOps.OnFrameChanged | spa_anim2D/animation/ops.py:448-456 | While pinned, the shifted-frames display is on exactly at the pinned frame. Unpinned, it is left alone. |
| KeyframeOps.UndoStickToFrame | spa_anim2D/animation/ops.py:560-576 | When the rule applies and the frames differ, the scene frame and the last edit frame are swapped. Otherwise both are unchanged. |
| KeyframeOps.UndoStickToFrameTwice | spa_anim2D/animation/ops.py:570-576 | Two undos in a row restore both frames. |
| KeyframeOps.OnUndoPost | spa_anim2D/animation/ops.py:558-576 | The handler leaves the scene frame and last edit frame as the stick-to-frame rule says. |
| KeyframeOps.OnDepsgraphUpdatePost | spa_anim2D/animation/ops.py:536-555 | A geometry update of the edited grease pencil, with stick-to-frame on, records the current frame as the last edit frame. Otherwise nothing changes. |
| Materials.BlendData.constructor | spa_anim2D/materials/core.py:89-98 | The blend data holds the given materials and datablocks, with nothing removed. |
| Materials.SplitMaterialName | spa_anim2D/materials/core.py:49-56 | There is one part exactly when the name has no '/'. Two parts, joined by '/', give the name back, and the first part has no '/'. |
| Materials.GetPaletteName | spa_anim2D/materials/core.py:59-66 | There is a palette exactly when the name has a '/'. It is the text before the first '/'. |
| Materials.GetMaterialBasename | spa_anim2D/materials/core.py:69-75 | Without a '/', the basename is the whole name. |
| Materials.NameRoundTrip | spa_anim2D/materials/core.py:49-75 | Palette + '/' + basename is the name. Without a palette, the basename is the name. |
| Materials.NameSplitsAtFirstSeparator | spa_anim2D/materials/core.py:56 | "A/B/C" has palette "A" and basename "B/C". |
| Materials.Range | spa_anim2D/materials/core.py:96 | The material positions are visited in file order. |
| Materials.GetGreasePencilMaterials | spa_anim2D/materials/core.py:89-98 | Exactly the live grease pencil materials are listed, local ones only when asked. |
| Materials.SimilarIffSameStyle | spa_anim2D/materials/core.py:29-41 | Equality of the ten compared attributes is equality of the compared settings. |
| Materials.SimilarEquivalence | spa_anim2D/materials/core.py:101-125 | Similarity is reflexive, symmetric and transitive. |
| Materials.AreSimilarGpMaterials | spa_anim2D/materials/core.py:101-125 | ValueError exactly when either material is not a grease pencil material. Otherwise true exactly when all ten attributes are equal. |
| MaterialCleanup.CleanupKey | spa_anim2D/materials/core.py:132-141 | A material is grouped exactly when it is a live local grease pencil material with a non-empty palette. Its group key is its name without the numbering suffix. |
| MaterialCleanup.CleanupEntries | spa_anim2D/materials/core.py:135-141 | The first pass visits every material in file order. |
| MaterialCleanup.EarliestTwinBelow | spa_anim2D/materials/core.py:151-161 | Finds the earliest material of the same group with the same settings below a bound, or none. |
| MaterialCleanup.KeeperSurvives | spa_anim2D/materials/core.py:151-161 | A removed material's keeper is earlier, in the same group, similar to it, and itself kept. So one remap per material suffices. |
| MaterialCleanup.SurvivorsDiffer | spa_anim2D/materials/core.py:128-164 | After the cleanup, no two surviving materials of a group are similar. |
| MaterialCleanup.FirstOfGroupKept | spa_anim2D/materials/core.py:146-161 | The first material of a group, and any material not in a group, is never removed. |
| MaterialCleanup.FirstSimilarBelow | spa_anim2D/materials/core.py:151-161 | Finds the first position of a group below a bound whose material has the same settings, or none. |
| MaterialCleanup.SkipOrphan | spa_anim2D/materials/core.py:152-154 | Skipping an already orphaned material loses no removal: all its twins already have an earlier keeper. |
| MaterialCleanup.KeepStep | spa_anim2D/materials/core.py:156-161 | Comparing a kept material with a later one records it as that one's keeper exactly when they are similar. |
| MaterialCleanup.RemapLaterTwins | spa_anim2D/materials/core.py:156-161 | The inner loop for a kept material remaps each later similar material to it. Afterwards every position agrees with the scan's specification up to the next bound, and no id outside the group is remapped. |
| MaterialCleanup.KeeperOfSimilar | spa_anim2D/materials/core.py:151-161 | A material with an earlier similar material in its group is remapped to the first such material, as the cleanup's keeper. |
| MaterialCleanup.ScanDone | spa_anim2D/materials/core.py:151-161 | After a material has been compared with all later ones, its own keeper search is complete. |
| MaterialCleanup.ScanGroup | spa_anim2D/materials/core.py:146-161 | In one group, a material is orphaned exactly when an earlier material of the group has its settings. It is remapped to the first such material. |
| MaterialCleanup.GroupKeeper | spa_anim2D/materials/core.py:130-161 | The keeper found inside a group is the file-wide earliest similar material with the same key. |
| MaterialCleanup.CandidateGroups | spa_anim2D/materials/core.py:130-141 | The groups have distinct keys, one per key carried by some grouped material. |
| MaterialCleanup.GroupAt | spa_anim2D/materials/core.py:139-141 | A group lists, in file order, exactly the materials with its key. |
| MaterialCleanup.PlanStep | spa_anim2D/materials/core.py:146-161 | Scanning one more group adds exactly its orphans to the plan. |
| MaterialCleanup.CleanupGroup | spa_anim2D/materials/core.py:146-161 | Processing one more candidate group extends the remap plan so that it covers that group as well, with the same keeper as the specification. |
| MaterialCleanup.PlanCoversAll | spa_anim2D/materials/core.py:128-161 | A plan covering every candidate group remaps exactly the materials that have a keeper, each to its keeper. |
| MaterialCleanup.CleanupPlan | spa_anim2D/materials/core.py:128-161 | The orphans are exactly the materials with an earlier similar material in their group, each mapped to the first one. |
| MaterialCleanup.RemapSlot | spa_anim2D/materials/core.py:160 | `user_remap`: a slot holding an orphan then holds its keeper. Other slots are unchanged. |
| MaterialCleanup.RemapUsers | spa_anim2D/materials/core.py:160 | Every slot of every datablock is remapped; datablocks keep their palette and slot count. |
| MaterialCleanup.CleanupKeepsSlotsLive | spa_anim2D/materials/core.py:160-164 | After remapping and removal, no slot refers to a removed material. |
| MaterialCleanup.CleanupDuplicatedMaterials | spa_anim2D/materials/core.py:128-164 | The orphans are removed, their users are remapped to their keepers, and the material list is otherwise unchanged. |
| Palettes.PaletteRegistry.constructor | spa_anim2D/materials/core.py:19-21 | The global registry starts empty. |
| Palettes.PaletteKey | spa_anim2D/materials/core.py:185-193 | A material is registered exactly when it is a live grease pencil material with a palette that is neither empty nor "-". It is registered under that palette. |
| Palettes.PaletteEntries | spa_anim2D/materials/core.py:185-196 | The refill loop visits every material in file order. |
| Palettes.RegistryDefaultFirst | spa_anim2D/materials/core.py:182 | After a rebuild, "-" is the first key and has no materials; no key is repeated. |
| Palettes.RegistryContents | spa_anim2D/materials/core.py:185-196 | A material is listed under p exactly when its palette is p. Every list is in file order. |
| Palettes.RegistryKeys | spa_anim2D/materials/core.py:182-196 | The keys are "-" and the palettes of registered materials. Every other palette has at least one material. |
| Palettes.ValidPaletteNameRegistered | spa_anim2D/materials/core.py:78-86 | `has_valid_palette_name` against the rebuilt registry: a palette is valid exactly when it is the default palette "-" or the palette of some registered material of the file. A name without a palette component is never valid. |
| Palettes.ListedMaterialValid | spa_anim2D/materials/core.py:78-86 | After a rebuild, a live grease pencil material has a valid palette exactly when its name has a non-empty palette component. |
| Palettes.AppendMissing | spa_anim2D/materials/core.py:217-219 | Existing slots are kept and every palette material ends up in a slot. Nothing foreign is added. |
| Palettes.AppendMissingNoDuplicates | spa_anim2D/materials/core.py:217-219 | The appended slots are new and pairwise distinct: assignment never duplicates a material. |
| Palettes.AppendMissingPresent | spa_anim2D/materials/core.py:218 | When every palette material is already held, nothing is appended. |
| Palettes.AppendMissingIdempotent | spa_anim2D/materials/core.py:217-219 | Appending twice is appending once. |
| Palettes.AssignActive | spa_anim2D/materials/core.py:204-219 | An unregistered palette is reset to "-" with no material assigned. Otherwise the palette's missing materials are appended. |
| Palettes.AssignActiveIdempotent | spa_anim2D/materials/core.py:204-219 | Assigning twice is assigning once, for any rebuilt registry. |
| Palettes.AssignActivePaletteMaterials | spa_anim2D/materials/core.py:204-219 | The datablock becomes its assigned form; no other datablock changes. |
| Palettes.AssignAll | spa_anim2D/materials/core.py:200-201 | Every datablock is assigned its active palette's materials. |
| Palettes.ClearMaterialPalettes | spa_anim2D/materials/core.py:44-46 | The registry becomes empty; this is also the load_pre handler. |
| Palettes.RefreshPalettes | spa_anim2D/materials/core.py:167-201 | When not ready, the registry ends empty with nothing else changed. When ready, the registry is rebuilt from the materials left after the optional cleanup. After a cleanup every datablock is reassigned; without one, materials and datablocks are unchanged. |
| Palettes.FillRegistry | spa_anim2D/materials/core.py:181-196 | The cleared registry is refilled to the rebuilt registry of the file. |
| Palettes.AssignAllPalettes | spa_anim2D/materials/core.py:198-201 | Every datablock is assigned its palette's materials. |
| Palettes.InitializePalettes | spa_anim2D/materials/core.py:284-287 | A non-empty registry is left alone. An empty one is rebuilt, without cleanup. |
| Palettes.GetMaterialPaletteValue | spa_anim2D/materials/core.py:250-259 | Returns the stored name's position in registry order. A missing name gives 0 and is reset to "-". No stored name gives 0. |
| Palettes.SetMaterialPaletteValue | spa_anim2D/materials/core.py:242-247 | Stores the registry key at the index, with Python's negative indexing. IndexError exactly when the index is outside the list. |
| Palettes.GetAfterSet | spa_anim2D/materials/core.py:242-259 | Reading the enum after setting index i gives i back. |
| Palettes.SetAfterGet | spa_anim2D/materials/core.py:242-259 | Setting the index read for a registered name stores that same name. |
| Palettes.EnumItems | spa_anim2D/materials/core.py:275-281 | The items are exactly the registry's palettes other than VertexColor, each with its registry index, in registry order. |
| Palettes.MaterialPalettesEnumItems | spa_anim2D/materials/core.py:269-281 | An empty registry is rebuilt first. The items are then those of the registry. |
| PaletteUI.FilterItems | spa_anim2D/materials/ui.py:56-81 | There is one flag per slot: `bitflag_filter_item` exactly when the slot is shown, 0 otherwise. The reorder list is empty. |
| PaletteUI.EmptySlotHidden | spa_anim2D/materials/ui.py:67-69 | A slot without a material is never shown. |
| PaletteUI.ShownOnce | spa_anim2D/materials/ui.py:70-72 | A material held by several slots is shown at most once. |
| PaletteUI.ShownAtFirstSlot | spa_anim2D/materials/ui.py:70-79 | A material admitted by the palette rule is shown exactly at its first slot. |
| Pegs.ArmatureObject.constructor | spa_anim2D/animation/pegs/core.py:154-167 | The object starts with the given bones, groups and action, with group 0 active and no active bone. |
| Pegs.GetParentedLayersFromOffsetBoneName | spa_anim2D/animation/pegs/core.py:116-124 | Returns exactly the layers parented to the named bone, in layer order. |
| Pegs.FirstOffsetBoneFrom | spa_anim2D/animation/pegs/core.py:186-190 | Finds the first bone at or after a position that is in the group and named with the ".offset_" prefix. |
| Pegs.FirstOffsetBone | spa_anim2D/animation/pegs/core.py:186-191 | Finds the first bone of the group named with the ".offset_" prefix, or none. |
| Pegs.GetPoseBonesFromPegBoneGroup | spa_anim2D/animation/pegs/core.py:183-191 | Returns the first ".offset_" bone of the group and its parent. With no such bone it returns (None, None). |
| Pegs.GetBonesFromPegBoneGroup | spa_anim2D/animation/pegs/core.py:194-203 | Returns both bones of the peg, or (None, None) unless both exist. |
| Pegs.GetParentedLayersFromBoneGroup | spa_anim2D/animation/pegs/core.py:127-138 | None without a pegbar or without an offset bone. Otherwise, exactly the layers parented to the offset bone. |
| Pegs.ActiveBoneIndex | spa_anim2D/animation/pegs/core.py:141-145 | -1 exactly when no bone is active. Otherwise the first position holding the active bone's name. |
| Pegs.FindName | spa_anim2D/animation/pegs/core.py:145 | `bones.find`: the first position with the name, or -1. |
| Pegs.ActiveBoneIndexUnique | spa_anim2D/animation/pegs/core.py:141-145 | With unique bone names, the index is the active bone's position. |
| Pegs.GetPoseActiveBoneGroupIndexValue | spa_anim2D/animation/pegs/core.py:148-151 | -1 for a non-armature; otherwise the active group index. |
| Pegs.SetPoseActiveBoneGroupIndexValue | spa_anim2D/animation/pegs/core.py:154-167 | Nothing changes for a non-armature or an out-of-range index. Otherwise the group becomes active, and its root bone becomes the active bone when the peg has both bones. |
| Pegs.PegKeyframe | spa_anim2D/animation/pegs/core.py:170-180 | Seven distinct channels are keyed, all in the peg's group; the root bone is keyed on location only. |
| Pegs.RenameActionGroup | spa_anim2D/animation/pegs/core.py:212-213 | Renames the action group of the old name; KeyError exactly when there is none. |
| Pegs.RenamedBones | spa_anim2D/animation/pegs/core.py:215-217 | The peg's bones are named ".root_" + name and ".offset_" + name. Nothing else changes. |
| Pegs.PegRename | spa_anim2D/animation/pegs/core.py:206-217 | The group takes the new name; the action group of the old name follows. KeyError leaves the bones alone. Otherwise the bones are renamed with their prefixes, or AttributeError when the peg lacks one. |
| Pegs.RootNameIsNotOffset | spa_anim2D/animation/pegs/core.py:12-13 | A ".root_" name never starts with ".offset_". |
| Pegs.RenameKeepsPeg | spa_anim2D/animation/pegs/core.py:206-217 | After a rename the peg still resolves to the same root and offset bones. |
| OrderedGroups.AddToLookup | spa_anim2D/materials/core.py:194-196 | `d[k].append(id)` extends exactly the list of k. |
| OrderedGroups.GroupKeys | spa_anim2D/materials/core.py:182-196 | The initial keys stay first, new keys follow in first-insertion order, and no key repeats. |
| OrderedGroups.GroupLookup | spa_anim2D/materials/core.py:182-196 | Each list is its initial list followed by the ids filed under its key, in order. |
| OrderedGroups.SelectedIndexed | spa_anim2D/materials/core.py:185-196 | With ids equal to positions, a key's list holds exactly the positions with that key, ascending. |
| Seqs.Filter | spa_anim2D/animation/core.py:87-95 | A list comprehension with a condition keeps exactly the elements that meet it. |
| Seqs.SortBy | spa_anim2D/animation/core.py:128 | `sorted` by key returns its input ordered by the key, as a permutation of the input (same multiset, same length). |
| Seqs.SortByMembers | spa_anim2D/animation/core.py:128 | Sorting keeps exactly the input's members. |
| Seqs.IndexOf | spa_anim2D/materials/core.py:255 | `list.index` finds the first position holding the value, or none. |

## Left out

- Blender host calls are not modelled: redraws, `select_all`, and `bpy.ops` and the gizmo refresh called after setting the active bone group.
- Registration, handler installation, panels, UI list drawing, and the modal mouse handling of the shift operator (float mouse deltas) are not modelled.
- The onion-skinning world-space handler `on_depsgraph_update_post` (animation/ops.py:471-494) and its timer are not modelled. Timers are host scheduling.
- Setting the current keyframe's duration and getting or setting its type (animation/ops.py:363-372, 399-410) are not modelled. They are host property plumbing around `shift_gp_keyframes`, which is modelled.
- `on_load_post`, `on_undo_redo` and `update_gpencil_palette` are one-line calls of `refresh_palettes` and `assign_active_palette_materials`. Those two are modelled as `Palettes.RefreshPalettes` and `Palettes.AssignActivePaletteMaterials`.
- Vertex color materials (`init_vertex_color_materials` and the rest of materials/core.py from line 290 on) are not modelled. They create host datablocks.
- `remove_auto_numbering_suffix` is not part of this model. The cleanup takes it as the function parameter `shortName`.
- `user_remap` and `batch_remove` are one remapping of every slot plus a removal set. The source remaps one orphan at a time, each orphan to a kept material. A keeper is never an orphan (`MaterialCleanup.KeeperSurvives`), so the result is the same.
- A layer's `isActive` flag stands for `layer == gp.layers.active`. The host has at most one such layer (`GreasePencilData.AtMostOneActive`), and under it `Keyframes.ActiveFilterIsActiveLayer` shows that the ACTIVE filter and `ActiveLayerIndex` agree. Queries are defined for any flags.
- `Palettes.AssignActive` and the other palette rules read a datablock's palette as a plain stored field. The host reads `palette` through the enum property, whose value can differ from the stored name when that name is not one of the enum items (such as "VertexColor"). The add-on's own setter never stores such a name.
- Python object identity of materials and layers is not modelled. Materials are positions, and layers and keyframes are values.
- The host uniquifies bone names; this is not modelled. `Pegs.ActiveBoneIndex` is proved for any names, and `Pegs.ActiveBoneIndexUnique` covers unique names.
- `Keyframes.ShiftKeyframes` requires a non-empty list. On an empty list the source's `min` raises ValueError, which no caller reaches: both callers return early on an empty query.
- `KeyframeOps.KeyframesShiftOperator.Setup` requires that the query finds keyframes. Otherwise the source leaves the operator's fields unset and `execute` cancels before using them.
- `KeyframeOps.KeyframesShiftOperator.Execute` models the frame numbers only. Selecting the moved keyframes afterwards is host state and is not modelled.
- `KeyframeOps.GetCurrentKeyframeDuration` requires that every layer's active frame is one of its keyframes, as the host guarantees.
- `Pegs.PegRename` requires a bone group of the object and parents that name bones of the list, as the host guarantees.
- Float attributes of materials are compared exactly, as real numbers. Rounding is not modelled.
- Frame numbers are unbounded integers. The host's 32-bit frame range is not modelled; queries use `sys.maxsize` as their upper bound, as the source does.

## Findings

`Keyframes.CreateNewDuplicatedFrames` calls the computation as written, as `gp_create_new_duplicated_frames` does (animation/core.py:200), so it raises the same IndexError. The peg bake reaches that input when a peg has no keys. `Keyframes.ComputeListOfFramesToDuplicate` is the corrected computation; it returns the plan on every input.

| source | as written | input that shows it | evidently intended | confidence | as-written member | corrected member |
|---|---|---|---|---|---|---|
| spa_anim2D/animation/core.py:155 | The skip loop `while frame_numbers[i] < gpl.frames[0].frame_number` has no bound on `i`. It reads past the end of `frame_numbers` and raises IndexError when every target lies before the first keyframe, and when the target list is empty. | A layer with one keyframe on frame 3, with targets [1, 2] or no targets. | Skip the early targets up to the end of the list and return an empty plan, which is what the plan of such targets is. | not executed | Keyframes.ComputeListOfFramesToDuplicateAsWritten | Keyframes.ComputeListOfFramesToDuplicate |
