/**
 * Pegs (animation/pegs/core.py): a peg is a bone group of the pegbar armature
 * holding a root bone and, parented to it, an offset bone named with the
 * ".root_" and ".offset_" prefixes; grease pencil layers are attached to a peg
 * by naming its offset bone as their parent bone. Pose bones and armature bones
 * are modelled as one list (the host keeps them paired by name), a bone group is
 * its position in the pose's group list, and a bone is its position in the
 * bone list.
 */
module Pegs {
  import opened Wrappers
  import opened Seqs
  import opened GreasePencilData

  const PEGS_ROOT_BONE_PREFIX: string := ".root_"
  const PEGS_OFFSET_BONE_PREFIX: string := ".offset_"

  /** A bone: its name, its bone group and its parent bone, if any. */
  datatype Bone = Bone(name: string, boneGroup: Option<nat>, parent: Option<nat>)

  /** Parents name bones of the list. */
  predicate WellFormed(bones: seq<Bone>) {
    forall i :: 0 <= i < |bones| && bones[i].parent.Some? ==> bones[i].parent.value < |bones|
  }

  /** An object that may be the pegbar armature. */
  class ArmatureObject {
    /** `type == "ARMATURE"`. */
    var isArmature: bool
    var bones: seq<Bone>
    /** The names of `pose.bone_groups`. */
    var boneGroups: seq<string>
    /** `pose.bone_groups.active_index`. */
    var activeGroupIndex: int
    /** `data.bones.active`. */
    var activeBone: Option<nat>
    /** The group names of `animation_data.action`, None without animation data or action. */
    var actionGroups: Option<seq<string>>

    constructor (isArmature: bool, bones: seq<Bone>, boneGroups: seq<string>, actionGroups: Option<seq<string>>)
      ensures this.isArmature == isArmature && this.bones == bones && this.boneGroups == boneGroups
      ensures activeGroupIndex == 0 && activeBone == None && this.actionGroups == actionGroups
    {
      this.isArmature := isArmature;
      this.bones := bones;
      this.boneGroups := boneGroups;
      activeGroupIndex := 0;
      activeBone := None;
      this.actionGroups := actionGroups;
    }
  }

  // ----- Layers attached to a peg -----

  /** `get_parented_layers_from_offset_bone_name`: the layers parented to the named bone, in layer order. */
  method GetParentedLayersFromOffsetBoneName(layers: seq<Layer>, offsetBoneName: string) returns (parented: seq<Layer>)
    ensures parented == Filter(layers, (l: Layer) => l.parentBone == offsetBoneName)
    ensures forall l :: l in parented <==> l in layers && l.parentBone == offsetBoneName
  {
    parented := [];
    for i := 0 to |layers|
      invariant parented == Filter(layers[..i], (l: Layer) => l.parentBone == offsetBoneName)
    {
      FilterSnoc(layers, i, (l: Layer) => l.parentBone == offsetBoneName);
      if layers[i].parentBone == offsetBoneName {
        parented := parented + [layers[i]];
      }
    }
    assert layers[..|layers|] == layers;
  }

  // ----- Bones of a peg -----

  /** Bone `i` is an offset bone of group `g`. */
  predicate IsOffsetOf(bones: seq<Bone>, g: nat, i: nat)
    requires i < |bones|
  {
    bones[i].boneGroup == Some(g) && PEGS_OFFSET_BONE_PREFIX <= bones[i].name
  }

  /** The first offset bone of group `g` at position `from` or later. */
  function FirstOffsetBoneFrom(bones: seq<Bone>, g: nat, from: nat): (r: Option<nat>)
    requires from <= |bones|
    ensures r.None? <==> forall i :: from <= i < |bones| ==> !IsOffsetOf(bones, g, i)
    ensures r.Some? ==> from <= r.value < |bones| && IsOffsetOf(bones, g, r.value) &&
                        forall i :: from <= i < r.value ==> !IsOffsetOf(bones, g, i)
    decreases |bones| - from
  {
    if from == |bones| then None
    else if IsOffsetOf(bones, g, from) then Some(from)
    else FirstOffsetBoneFrom(bones, g, from + 1)
  }

  /** The first offset bone of group `g`. */
  function FirstOffsetBone(bones: seq<Bone>, g: nat): (r: Option<nat>)
    ensures r.None? <==> forall i :: 0 <= i < |bones| ==> !IsOffsetOf(bones, g, i)
    ensures r.Some? ==> r.value < |bones| && IsOffsetOf(bones, g, r.value) &&
                        forall i :: 0 <= i < r.value ==> !IsOffsetOf(bones, g, i)
  {
    FirstOffsetBoneFrom(bones, g, 0)
  }

  /** The (root, offset) pair of group `g`: the first offset bone and its parent. */
  function PegBones(bones: seq<Bone>, g: nat): (Option<nat>, Option<nat>) {
    match FirstOffsetBone(bones, g)
    case None => (None, None)
    case Some(i) => (bones[i].parent, Some(i))
  }

  /**
   * `get_pose_bones_from_peg_bone_group`: the first bone of the group whose
   * name starts with ".offset_", with its parent; (None, None) when none does.
   */
  method GetPoseBonesFromPegBoneGroup(bones: seq<Bone>, g: nat) returns (root: Option<nat>, offset: Option<nat>)
    ensures offset.None? ==> root.None? && forall i :: 0 <= i < |bones| ==> !IsOffsetOf(bones, g, i)
    ensures offset.Some? ==> offset.value < |bones| && IsOffsetOf(bones, g, offset.value) &&
                             root == bones[offset.value].parent &&
                             forall i :: 0 <= i < offset.value ==> !IsOffsetOf(bones, g, i)
    ensures (root, offset) == PegBones(bones, g)
  {
    for i := 0 to |bones|
      invariant forall k :: 0 <= k < i ==> !IsOffsetOf(bones, g, k)
    {
      if bones[i].boneGroup == Some(g) && PEGS_OFFSET_BONE_PREFIX <= bones[i].name {
        return bones[i].parent, Some(i);
      }
    }
    return None, None;
  }

  /** `get_bones_from_peg_bone_group`: both bones of the peg, or (None, None) unless both exist. */
  method GetBonesFromPegBoneGroup(bones: seq<Bone>, g: nat) returns (root: Option<nat>, offset: Option<nat>)
    ensures root.Some? <==> offset.Some?
    ensures root.Some? ==> (root, offset) == PegBones(bones, g)
    ensures root.None? ==> PegBones(bones, g).0.None? || PegBones(bones, g).1.None?
  {
    var r, o := GetPoseBonesFromPegBoneGroup(bones, g);
    if r.Some? && o.Some? {
      return r, o;
    }
    return None, None;
  }

  /**
   * `get_parented_layers_from_bone_group`: None without a pegbar object or
   * without an offset bone in the group; otherwise the layers parented to the
   * offset bone.
   */
  method GetParentedLayersFromBoneGroup(layers: seq<Layer>, pegbar: Option<seq<Bone>>, g: nat)
    returns (parented: Option<seq<Layer>>)
    ensures parented.None? <==> pegbar.None? || FirstOffsetBone(pegbar.value, g).None?
    ensures parented.Some? ==>
              var offsetName := pegbar.value[FirstOffsetBone(pegbar.value, g).value].name;
              forall l :: l in parented.value <==> l in layers && l.parentBone == offsetName
  {
    if pegbar.None? {
      return None;
    }
    var _, offset := GetPoseBonesFromPegBoneGroup(pegbar.value, g);
    if offset.None? {
      return None;
    }
    var l := GetParentedLayersFromOffsetBoneName(layers, pegbar.value[offset.value].name);
    return Some(l);
  }

  // ----- Active indices -----

  /**
   * `get_armature_bones_active_bone_index_value`: -1 without an active bone,
   * otherwise the position of the first bone with the active bone's name.
   */
  function ActiveBoneIndex(bones: seq<Bone>, active: Option<nat>): (r: int)
    requires active.Some? ==> active.value < |bones|
    ensures r == -1 <==> active.None?
    ensures active.Some? ==> 0 <= r <= active.value && bones[r].name == bones[active.value].name &&
                             forall k :: 0 <= k < r ==> bones[k].name != bones[active.value].name
  {
    if active.None? then -1
    else FindName(bones, bones[active.value].name, 0)
  }

  /** `bones.find(name)` from position `from` on. */
  function FindName(bones: seq<Bone>, name: string, from: nat): (r: int)
    requires from <= |bones|
    ensures r == -1 <==> forall k :: from <= k < |bones| ==> bones[k].name != name
    ensures r != -1 ==> from <= r < |bones| && bones[r].name == name &&
                        forall k :: from <= k < r ==> bones[k].name != name
    decreases |bones| - from
  {
    if from == |bones| then -1
    else if bones[from].name == name then from
    else FindName(bones, name, from + 1)
  }

  /** With unique bone names the active index is the active bone's position. */
  lemma ActiveBoneIndexUnique(bones: seq<Bone>, i: nat)
    requires i < |bones|
    requires forall a, b :: 0 <= a < b < |bones| ==> bones[a].name != bones[b].name
    ensures ActiveBoneIndex(bones, Some(i)) == i
  {
    var r := ActiveBoneIndex(bones, Some(i));
    assert bones[r].name == bones[i].name;
  }

  /** `get_pose_active_bone_group_index_value`. */
  function GetPoseActiveBoneGroupIndexValue(isArmature: bool, activeGroupIndex: int): (r: int)
    ensures !isArmature ==> r == -1
    ensures isArmature ==> r == activeGroupIndex
  {
    if !isArmature then -1 else activeGroupIndex
  }

  /**
   * `set_pose_active_bone_group_index_value`: ignored for a non-armature or an
   * index outside the group list; otherwise the group becomes active and, when
   * the peg has both bones, its root bone becomes the active bone.
   */
  method SetPoseActiveBoneGroupIndexValue(obj: ArmatureObject, value: int)
    modifies obj`activeGroupIndex, obj`activeBone
    ensures !obj.isArmature || !(0 <= value < |obj.boneGroups|) ==>
              obj.activeGroupIndex == old(obj.activeGroupIndex) && obj.activeBone == old(obj.activeBone)
    ensures obj.isArmature && 0 <= value < |obj.boneGroups| ==>
              obj.activeGroupIndex == value &&
              obj.activeBone == (var pb := PegBones(obj.bones, value);
                                 if pb.0.Some? then pb.0 else old(obj.activeBone))
  {
    if !obj.isArmature {
      return;
    }
    if !(0 <= value < |obj.boneGroups|) {
      return;
    }
    obj.activeGroupIndex := value;
    var root, _ := GetBonesFromPegBoneGroup(obj.bones, value);
    if root.Some? {
      obj.activeBone := root;
    }
  }

  // ----- Keying and renaming -----

  /** The two bones of a peg. */
  datatype PegBoneRole = Root | Offset

  /** One `keyframe_insert(data_path, index=…, group=…)` call. */
  datatype KeyframeInsert = KeyframeInsert(bone: PegBoneRole, dataPath: string, index: nat, group: string)

  /**
   * `peg_keyframe`: keys X and Z location of the root bone and X and Z
   * location, Y rotation and X and Z scale of the offset bone, all in the
   * peg's action group.
   */
  function PegKeyframe(groupName: string): (r: seq<KeyframeInsert>)
    ensures |r| == 7
    ensures forall i :: 0 <= i < |r| ==> r[i].group == groupName
    ensures forall i, j :: 0 <= i < j < |r| ==> (r[i].bone, r[i].dataPath, r[i].index) != (r[j].bone, r[j].dataPath, r[j].index)
    ensures forall i :: 0 <= i < |r| && r[i].bone == Root ==> r[i].dataPath == "location"
  {
    [KeyframeInsert(Root, "location", 0, groupName),
     KeyframeInsert(Root, "location", 2, groupName),
     KeyframeInsert(Offset, "location", 0, groupName),
     KeyframeInsert(Offset, "location", 2, groupName),
     KeyframeInsert(Offset, "rotation_euler", 1, groupName),
     KeyframeInsert(Offset, "scale", 0, groupName),
     KeyframeInsert(Offset, "scale", 2, groupName)]
  }

  /** The action groups after renaming the first group called `oldName`, or KeyError when there is none. */
  function RenameActionGroup(groups: seq<string>, oldName: string, newName: string): (r: Result<seq<string>, PyException>)
    ensures r.Err? <==> oldName !in groups
    ensures r.Err? ==> r.error == KeyError
    ensures r.Ok? ==> |r.value| == |groups| && newName in r.value &&
                      exists k :: 0 <= k < |groups| && groups[k] == oldName && oldName !in groups[..k] &&
                                  r.value == groups[k := newName]
  {
    match IndexOf(groups, oldName)
    case None => Err(KeyError)
    case Some(k) =>
      assert groups[k := newName][k] == newName;
      Ok(groups[k := newName])
  }

  /** The bone list after `peg_rename` renames the peg's bones. */
  function RenamedBones(bones: seq<Bone>, root: nat, offset: nat, name: string): (r: seq<Bone>)
    requires root < |bones| && offset < |bones|
    ensures |r| == |bones|
    ensures r[offset].name == PEGS_OFFSET_BONE_PREFIX + name
    ensures root != offset ==> r[root].name == PEGS_ROOT_BONE_PREFIX + name
    ensures forall i :: 0 <= i < |bones| ==> r[i].boneGroup == bones[i].boneGroup && r[i].parent == bones[i].parent
    ensures forall i :: 0 <= i < |bones| && i != root && i != offset ==> r[i] == bones[i]
  {
    var b := bones[root := bones[root].(name := PEGS_ROOT_BONE_PREFIX + name)];
    b[offset := b[offset].(name := PEGS_OFFSET_BONE_PREFIX + name)]
  }

  /**
   * `peg_rename`: the group takes the new name; the action group of the old
   * name, when the object has an action, follows (KeyError when it has no such
   * group); then the root and offset bones are renamed with their prefixes
   * (AttributeError when the peg lacks either bone). Renames made before an
   * error stay.
   */
  method PegRename(obj: ArmatureObject, g: nat, newName: string) returns (error: Option<PyException>)
    requires g < |obj.boneGroups| && WellFormed(obj.bones)
    modifies obj`boneGroups, obj`actionGroups, obj`bones
    ensures obj.boneGroups == old(obj.boneGroups)[g := newName]
    ensures old(obj.actionGroups).None? ==> obj.actionGroups.None?
    ensures old(obj.actionGroups).Some? ==>
              match RenameActionGroup(old(obj.actionGroups).value, old(obj.boneGroups)[g], newName)
              case Err(e) => error == Some(e) && obj.actionGroups == old(obj.actionGroups) && obj.bones == old(obj.bones)
              case Ok(groups) => obj.actionGroups == Some(groups)
    ensures error != Some(KeyError) ==>
              var pb := PegBones(old(obj.bones), g);
              if pb.0.Some? && pb.1.Some? then
                error.None? && obj.bones == RenamedBones(old(obj.bones), pb.0.value, pb.1.value, newName)
              else
                error == Some(AttributeError) && obj.bones == old(obj.bones)
  {
    var oldName := obj.boneGroups[g];
    obj.boneGroups := obj.boneGroups[g := newName];
    if obj.actionGroups.Some? {
      match RenameActionGroup(obj.actionGroups.value, oldName, newName)
      case Err(e) =>
        return Some(e);
      case Ok(groups) =>
        obj.actionGroups := Some(groups);
    }
    var root, offset := GetBonesFromPegBoneGroup(obj.bones, g);
    if root.None? {
      return Some(AttributeError);
    }
    assert root.value < |obj.bones| by {
      assert WellFormed(obj.bones);
    }
    obj.bones := obj.bones[root.value := obj.bones[root.value].(name := PEGS_ROOT_BONE_PREFIX + obj.boneGroups[g])];
    obj.bones := obj.bones[offset.value := obj.bones[offset.value].(name := PEGS_OFFSET_BONE_PREFIX + obj.boneGroups[g])];
    return None;
  }

  /** A name carrying the root prefix never carries the offset prefix. */
  lemma RootNameIsNotOffset(name: string)
    ensures !(PEGS_OFFSET_BONE_PREFIX <= PEGS_ROOT_BONE_PREFIX + name)
  {
    assert (PEGS_ROOT_BONE_PREFIX + name)[1] == 'r';
  }

  /**
   * After a successful rename the peg still resolves to the same root and
   * offset bones, so a peg can be renamed any number of times.
   */
  lemma RenameKeepsPeg(bones: seq<Bone>, g: nat, name: string)
    requires WellFormed(bones)
    requires PegBones(bones, g).0.Some? && PegBones(bones, g).1.Some?
    ensures var pb := PegBones(bones, g);
      PegBones(RenamedBones(bones, pb.0.value, pb.1.value, name), g) == pb
  {
    var pb := PegBones(bones, g);
    var root := pb.0.value;
    var offset := pb.1.value;
    var r := RenamedBones(bones, root, offset, name);
    RootNameIsNotOffset(name);
    assert IsOffsetOf(r, g, offset);
    forall i | 0 <= i < offset ensures !IsOffsetOf(r, g, i) {
      assert !IsOffsetOf(bones, g, i);
    }
  }
}
