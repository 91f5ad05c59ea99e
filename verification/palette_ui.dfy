/**
 * The slot filter of the palette material list (materials/ui.py:56-81): which
 * material slots of a grease pencil object the list shows.
 */
module PaletteUI {
  import opened Wrappers
  import opened Materials

  /** Blender's `UIList.bitflag_filter_item` (1 << 30): the flag of a shown item. */
  const BITFLAG_FILTER_ITEM: int := 0x4000_0000

  /** Every filled slot names a material of the file. */
  predicate SlotsInRange(slots: seq<Option<nat>>, mats: seq<Material>) {
    forall i :: 0 <= i < |slots| && slots[i].Some? ==> slots[i].value < |mats|
  }

  /**
   * The palette rule: a material is listed under the active palette when its
   * palette is that palette, or when the active palette is the default "-" and
   * the material's palette is not registered.
   */
  predicate InActivePalette(m: Material, active: string, palettes: seq<string>) {
    GetPaletteName(m) == Some(active) || (active == DEFAULT_PALETTE_ID && !HasValidPaletteName(m, palettes))
  }

  /** Slot `i` is shown: it holds a material, the first slot to hold it, and the palette rule admits it. */
  predicate Shown(slots: seq<Option<nat>>, mats: seq<Material>, active: string, palettes: seq<string>, i: nat)
    requires SlotsInRange(slots, mats) && i < |slots|
  {
    slots[i].Some? && slots[i] !in slots[..i] && InActivePalette(mats[slots[i].value], active, palettes)
  }

  /**
   * `filter_items`: one flag per slot, `BITFLAG_FILTER_ITEM` for a shown slot
   * and 0 otherwise, and an empty reordering.
   */
  method FilterItems(slots: seq<Option<nat>>, mats: seq<Material>, active: string, palettes: seq<string>)
    returns (flags: seq<int>, newOrder: seq<nat>)
    requires SlotsInRange(slots, mats)
    ensures |flags| == |slots| && newOrder == []
    ensures forall i :: 0 <= i < |slots| ==>
              flags[i] == if Shown(slots, mats, active, palettes, i) then BITFLAG_FILTER_ITEM else 0
  {
    newOrder := [];
    var buffer := new int[|slots|](_ => 0);
    for i := 0 to |slots|
      invariant forall k :: 0 <= k < i ==>
                  buffer[k] == if Shown(slots, mats, active, palettes, k) then BITFLAG_FILTER_ITEM else 0
      invariant forall k :: i <= k < |slots| ==> buffer[k] == 0
    {
      if slots[i].None? {
        continue;
      }
      if slots[i] in slots[..i] {
        continue;
      }
      var m := mats[slots[i].value];
      if GetPaletteName(m) == Some(active) || (active == DEFAULT_PALETTE_ID && !HasValidPaletteName(m, palettes)) {
        buffer[i] := BITFLAG_FILTER_ITEM;
      }
    }
    flags := buffer[..];
  }

  /** Empty slots are never shown. */
  lemma EmptySlotHidden(slots: seq<Option<nat>>, mats: seq<Material>, active: string, palettes: seq<string>, i: nat)
    requires SlotsInRange(slots, mats) && i < |slots| && slots[i].None?
    ensures !Shown(slots, mats, active, palettes, i)
  {
  }

  /** A material held by several slots is shown at most once. */
  lemma ShownOnce(slots: seq<Option<nat>>, mats: seq<Material>, active: string, palettes: seq<string>, i: nat, j: nat)
    requires SlotsInRange(slots, mats) && i < j < |slots|
    requires Shown(slots, mats, active, palettes, i) && Shown(slots, mats, active, palettes, j)
    ensures slots[i] != slots[j]
  {
    assert slots[..j][i] == slots[i];
  }

  /**
   * A material admitted by the palette rule is shown exactly at the first
   * slot that holds it.
   */
  lemma ShownAtFirstSlot(slots: seq<Option<nat>>, mats: seq<Material>, active: string, palettes: seq<string>, id: nat, i: nat)
    requires SlotsInRange(slots, mats) && i < |slots| && slots[i] == Some(id)
    requires InActivePalette(mats[id], active, palettes)
    ensures Shown(slots, mats, active, palettes, i) <==> forall k :: 0 <= k < i ==> slots[k] != Some(id)
  {
    if exists k :: 0 <= k < i && slots[k] == Some(id) {
      var k :| 0 <= k < i && slots[k] == Some(id);
      assert slots[..i][k] == Some(id);
    }
  }
}
