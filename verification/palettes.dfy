/**
 * The material palettes registry (materials/core.py:167-281): an
 * insertion-ordered dict from palette name to the grease pencil materials whose
 * names carry that palette, rebuilt from the file's materials with the default
 * palette "-" first; the assignment of a palette's materials to a grease pencil
 * datablock; and the index mapping behind the `material_palette` enum property.
 */
module Palettes {
  import opened Wrappers
  import opened Seqs
  import opened OrderedGroups
  import opened Materials
  import opened MaterialCleanup

  /** The global `material_palettes` dict. */
  class PaletteRegistry {
    var entries: Groups<string>

    constructor ()
      ensures entries == []
    {
      entries := [];
    }
  }

  // ----- The registry contents -----

  /**
   * The palette material `id` is filed under, or None when the rebuild skips
   * it: removed, not a grease pencil material, no or an empty palette, or the
   * placeholder palette "-".
   */
  function PaletteKey(mats: seq<Material>, removed: set<nat>, id: nat): (r: Option<string>)
    ensures r.Some? ==> IsListedGpMaterial(mats, removed, false, id) && GetPaletteName(mats[id]) == r &&
                        r.value != "" && r.value != DEFAULT_PALETTE_ID
    ensures r.None? && IsListedGpMaterial(mats, removed, false, id) ==>
              GetPaletteName(mats[id]) in {None, Some(""), Some(DEFAULT_PALETTE_ID)}
  {
    if !IsListedGpMaterial(mats, removed, false, id) then None
    else
      var palette := GetPaletteName(mats[id]);
      if palette.None? || palette.value == "" || palette.value == DEFAULT_PALETTE_ID then None
      else palette
  }

  /** One entry per material, in file order. */
  function PaletteEntries(mats: seq<Material>, removed: set<nat>): (r: seq<(Option<string>, nat)>)
    ensures |r| == |mats|
    ensures forall id :: 0 <= id < |mats| ==> r[id] == (PaletteKey(mats, removed, id), id)
  {
    seq(|mats|, id requires 0 <= id < |mats| => (PaletteKey(mats, removed, id), id))
  }

  /** The registry `refresh_palettes` builds from the materials of the file. */
  function RegistryFor(mats: seq<Material>, removed: set<nat>): Groups<string> {
    Group(PaletteEntries(mats, removed), [(DEFAULT_PALETTE_ID, [])])
  }

  /** The default palette is the first key and has no materials; no key is repeated. */
  lemma RegistryDefaultFirst(mats: seq<Material>, removed: set<nat>)
    ensures var reg := RegistryFor(mats, removed);
      |reg| >= 1 && reg[0] == (DEFAULT_PALETTE_ID, []) && Distinct(Keys(reg))
  {
    var entries := PaletteEntries(mats, removed);
    var init: Groups<string> := [(DEFAULT_PALETTE_ID, [])];
    var reg := RegistryFor(mats, removed);
    GroupKeys(entries, init);
    assert Keys(init) == [DEFAULT_PALETTE_ID];
    assert Keys(reg)[0] == DEFAULT_PALETTE_ID;
    GroupLookup(entries, init, DEFAULT_PALETTE_ID);
    if Selected(entries, DEFAULT_PALETTE_ID) != [] {
      var id := Selected(entries, DEFAULT_PALETTE_ID)[0];
      SelectedFrom(entries, DEFAULT_PALETTE_ID, id);
    }
    LookupAt(reg, 0);
  }

  /**
   * A material is listed under palette `p` exactly when it is a live grease
   * pencil material whose palette is `p` (never "-" or empty); each list is in
   * file order.
   */
  lemma RegistryContents(mats: seq<Material>, removed: set<nat>, p: string)
    ensures var l := Lookup(RegistryFor(mats, removed), p);
      (forall id: nat :: id in l <==> id < |mats| && PaletteKey(mats, removed, id) == Some(p)) &&
      (forall i, j :: 0 <= i < j < |l| ==> l[i] < l[j])
  {
    var entries := PaletteEntries(mats, removed);
    var init: Groups<string> := [(DEFAULT_PALETTE_ID, [])];
    GroupLookup(entries, init, p);
    SelectedIndexed(entries, p);
    assert Lookup(init, p) == [] by {
      assert init[1..] == [];
    }
  }

  /**
   * The keys are "-" and the palettes of the listed materials, and every
   * palette other than "-" has at least one material.
   */
  lemma RegistryKeys(mats: seq<Material>, removed: set<nat>, p: string)
    ensures p in Keys(RegistryFor(mats, removed)) <==>
              p == DEFAULT_PALETTE_ID || exists id :: 0 <= id < |mats| && PaletteKey(mats, removed, id) == Some(p)
    ensures p in Keys(RegistryFor(mats, removed)) && p != DEFAULT_PALETTE_ID ==>
              Lookup(RegistryFor(mats, removed), p) != []
  {
    var entries := PaletteEntries(mats, removed);
    var init: Groups<string> := [(DEFAULT_PALETTE_ID, [])];
    GroupKeys(entries, init);
    assert Keys(init) == [DEFAULT_PALETTE_ID];
    if Some(p) in EntryKeys(entries) {
      var id :| 0 <= id < |mats| && EntryKeys(entries)[id] == Some(p);
      SelectedNonEmpty(entries, p);
      GroupLookup(entries, init, p);
    }
    if exists id :: 0 <= id < |mats| && PaletteKey(mats, removed, id) == Some(p) {
      var id :| 0 <= id < |mats| && PaletteKey(mats, removed, id) == Some(p);
      assert EntryKeys(entries)[id] == Some(p);
    }
  }

  /**
   * `has_valid_palette_name` against the rebuilt registry: a material's palette
   * is valid exactly when it is the default palette or the palette of some
   * registered material of the file.
   */
  lemma ValidPaletteNameRegistered(mats: seq<Material>, removed: set<nat>, m: Material)
    ensures HasValidPaletteName(m, Keys(RegistryFor(mats, removed))) <==>
      GetPaletteName(m).Some? &&
      (GetPaletteName(m).value == DEFAULT_PALETTE_ID ||
       exists id :: 0 <= id < |mats| && PaletteKey(mats, removed, id) == GetPaletteName(m))
  {
    if GetPaletteName(m).Some? {
      RegistryKeys(mats, removed, GetPaletteName(m).value);
    }
  }

  /**
   * Every live grease pencil material of the file has a valid palette after a
   * rebuild, except one with no palette component or an empty one.
   */
  lemma ListedMaterialValid(mats: seq<Material>, removed: set<nat>, id: nat)
    requires IsListedGpMaterial(mats, removed, false, id)
    ensures HasValidPaletteName(mats[id], Keys(RegistryFor(mats, removed))) <==>
      GetPaletteName(mats[id]).Some? && GetPaletteName(mats[id]).value != ""
  {
    ValidPaletteNameRegistered(mats, removed, mats[id]);
    var palette := GetPaletteName(mats[id]);
    if palette == Some("") {
      forall j | 0 <= j < |mats| ensures PaletteKey(mats, removed, j) != Some("") {
      }
    } else if palette.Some? && palette.value != DEFAULT_PALETTE_ID {
      assert PaletteKey(mats, removed, id) == palette;
    }
  }

  // ----- Palette assignment -----

  /** Appends, in order, each of `ids` not already held by a slot. */
  function AppendMissing(slots: seq<Option<nat>>, ids: seq<nat>): (r: seq<Option<nat>>)
    ensures |slots| <= |r| && r[..|slots|] == slots
    ensures forall id :: id in ids ==> Some(id) in r
    ensures forall x :: x in r ==> x in slots || (x.Some? && x.value in ids)
  {
    if ids == [] then slots
    else
      var s := AppendMissing(slots, ids[..|ids| - 1]);
      var id := ids[|ids| - 1];
      assert ids == ids[..|ids| - 1] + [id];
      if Some(id) in s then s else s + [Some(id)]
  }

  /** The slots appended are new and pairwise different: assignment never duplicates a material. */
  lemma {:induction false} AppendMissingNoDuplicates(slots: seq<Option<nat>>, ids: seq<nat>)
    ensures var added := AppendMissing(slots, ids)[|slots|..];
      Distinct(added) && forall x :: x in added ==> x !in slots
  {
    if ids != [] {
      var prefix := ids[..|ids| - 1];
      AppendMissingNoDuplicates(slots, prefix);
      var s := AppendMissing(slots, prefix);
      var r := AppendMissing(slots, ids);
      if r != s {
        var id := ids[|ids| - 1];
        var before := s[|slots|..];
        assert r[|slots|..] == before + [Some(id)];
        assert Some(id) !in before by {
          assert forall x :: x in before ==> x in s;
        }
        assert Some(id) !in slots by {
          assert s[..|slots|] == slots;
          assert forall x :: x in s[..|slots|] ==> x in s;
        }
      }
    }
  }

  /** When every id is already held, nothing is appended. */
  lemma {:induction false} AppendMissingPresent(slots: seq<Option<nat>>, ids: seq<nat>)
    requires forall id :: id in ids ==> Some(id) in slots
    ensures AppendMissing(slots, ids) == slots
  {
    if ids != [] {
      var prefix := ids[..|ids| - 1];
      assert forall id :: id in prefix ==> id in ids;
      AppendMissingPresent(slots, prefix);
      assert ids[|ids| - 1] in ids;
    }
  }

  /** Appending the same materials twice changes nothing the second time. */
  lemma AppendMissingIdempotent(slots: seq<Option<nat>>, ids: seq<nat>)
    ensures AppendMissing(AppendMissing(slots, ids), ids) == AppendMissing(slots, ids)
  {
    AppendMissingPresent(AppendMissing(slots, ids), ids);
  }

  /**
   * `assign_active_palette_materials` on one datablock: an unregistered
   * palette is reset to "-"; otherwise the palette's materials not yet in a
   * slot are appended.
   */
  function AssignActive(entries: Groups<string>, gp: GpDatablock): (r: GpDatablock)
    ensures gp.materialPalette !in Keys(entries) ==> r == gp.(materialPalette := DEFAULT_PALETTE_ID)
    ensures gp.materialPalette in Keys(entries) ==>
              r.materialPalette == gp.materialPalette &&
              |gp.materials| <= |r.materials| && r.materials[..|gp.materials|] == gp.materials &&
              (forall id :: id in Lookup(entries, gp.materialPalette) ==> Some(id) in r.materials) &&
              (forall x :: x in r.materials ==> x in gp.materials || (x.Some? && x.value in Lookup(entries, gp.materialPalette)))
  {
    if gp.materialPalette !in Keys(entries) then gp.(materialPalette := DEFAULT_PALETTE_ID)
    else gp.(materials := AppendMissing(gp.materials, Lookup(entries, gp.materialPalette)))
  }

  /**
   * Assigning twice is assigning once, for any registry whose default
   * palette, when present, has no materials (every rebuilt registry).
   */
  lemma AssignActiveIdempotent(entries: Groups<string>, gp: GpDatablock)
    requires DEFAULT_PALETTE_ID in Keys(entries) ==> Lookup(entries, DEFAULT_PALETTE_ID) == []
    ensures AssignActive(entries, AssignActive(entries, gp)) == AssignActive(entries, gp)
  {
    if gp.materialPalette in Keys(entries) {
      AppendMissingIdempotent(gp.materials, Lookup(entries, gp.materialPalette));
    }
  }

  method AssignActivePaletteMaterials(registry: PaletteRegistry, data: BlendData, g: nat)
    requires g < |data.greasePencils|
    modifies data`greasePencils
    ensures data.greasePencils == old(data.greasePencils)[g := AssignActive(registry.entries, old(data.greasePencils)[g])]
  {
    var gp := data.greasePencils[g];
    if gp.materialPalette !in Keys(registry.entries) {
      data.greasePencils := data.greasePencils[g := gp.(materialPalette := DEFAULT_PALETTE_ID)];
      return;
    }
    var ids := Lookup(registry.entries, gp.materialPalette);
    for k := 0 to |ids|
      invariant data.greasePencils == old(data.greasePencils)[g := gp.(materials := AppendMissing(gp.materials, ids[..k]))]
    {
      assert ids[..k + 1][..k] == ids[..k];
      var slots := data.greasePencils[g].materials;
      if Some(ids[k]) !in slots {
        data.greasePencils := data.greasePencils[g := data.greasePencils[g].(materials := slots + [Some(ids[k])])];
      }
    }
    assert ids[..|ids|] == ids;
  }

  /** Every datablock after `assign_active_palette_materials`. */
  function AssignAll(entries: Groups<string>, gps: seq<GpDatablock>): (r: seq<GpDatablock>)
    ensures |r| == |gps|
    ensures forall g :: 0 <= g < |gps| ==> r[g] == AssignActive(entries, gps[g])
  {
    seq(|gps|, g requires 0 <= g < |gps| => AssignActive(entries, gps[g]))
  }

  // ----- Refresh -----

  /** `clear_material_palettes`, also the `load_pre` handler. */
  method ClearMaterialPalettes(registry: PaletteRegistry)
    modifies registry
    ensures registry.entries == []
  {
    registry.entries := [];
  }

  /**
   * `refresh_palettes`: clears the registry; when the file's data is ready,
   * optionally cleans up duplicated materials, rebuilds the registry from the
   * grease pencil materials and, after a cleanup, reassigns every datablock's
   * palette materials.
   */
  method RefreshPalettes(registry: PaletteRegistry, data: BlendData, ready: bool, cleanup: bool, shortName: string -> string)
    modifies registry, data
    ensures data.materials == old(data.materials)
    ensures !ready ==> registry.entries == [] &&
                       data.removed == old(data.removed) && data.greasePencils == old(data.greasePencils)
    ensures ready ==> registry.entries == RegistryFor(data.materials, data.removed)
    ensures ready && cleanup ==>
              data.removed == old(data.removed) + Orphans(old(data.materials), old(data.removed), shortName) &&
              data.greasePencils == AssignAll(registry.entries,
                                      RemapUsers(old(data.materials), old(data.removed), shortName, old(data.greasePencils)))
    ensures ready && !cleanup ==> data.removed == old(data.removed) && data.greasePencils == old(data.greasePencils)
  {
    ClearMaterialPalettes(registry);
    if !ready {
      return;
    }
    if cleanup {
      CleanupDuplicatedMaterials(data, shortName);
    }
    FillRegistry(registry, data.materials, data.removed);
    if cleanup {
      AssignAllPalettes(registry, data);
    }
  }

  /** The filling loop of `refresh_palettes` (lines 181-196), after the registry was cleared. */
  method FillRegistry(registry: PaletteRegistry, mats: seq<Material>, removed: set<nat>)
    modifies registry
    ensures registry.entries == RegistryFor(mats, removed)
  {
    registry.entries := [(DEFAULT_PALETTE_ID, [])];
    ghost var entries := PaletteEntries(mats, removed);
    for id := 0 to |mats|
      invariant registry.entries == Group(entries[..id], [(DEFAULT_PALETTE_ID, [])])
    {
      assert entries[..id + 1][..id] == entries[..id];
      if !IsListedGpMaterial(mats, removed, false, id) {
        continue;
      }
      var palette := GetPaletteName(mats[id]);
      if palette.None? || palette.value == "" {
        continue;
      }
      if palette.value == DEFAULT_PALETTE_ID {
        continue;
      }
      registry.entries := AddTo(registry.entries, palette.value, id);
    }
    assert entries[..|mats|] == entries;
  }

  /** The reassignment loop of `refresh_palettes` (lines 198-201). */
  method AssignAllPalettes(registry: PaletteRegistry, data: BlendData)
    modifies data`greasePencils
    ensures data.greasePencils == AssignAll(registry.entries, old(data.greasePencils))
  {
    ghost var before := data.greasePencils;
    for g := 0 to |data.greasePencils|
      invariant |data.greasePencils| == |before|
      invariant forall p :: 0 <= p < g ==> data.greasePencils[p] == AssignActive(registry.entries, before[p])
      invariant forall p :: g <= p < |before| ==> data.greasePencils[p] == before[p]
    {
      AssignActivePaletteMaterials(registry, data, g);
    }
    assert data.greasePencils == AssignAll(registry.entries, before);
  }

  /** `initialize_palettes`: refreshes an empty registry. */
  method InitializePalettes(registry: PaletteRegistry, data: BlendData, ready: bool, shortName: string -> string)
    modifies registry, data
    ensures old(registry.entries) != [] ==> registry.entries == old(registry.entries)
    ensures old(registry.entries) == [] && ready ==> registry.entries == RegistryFor(data.materials, data.removed)
    ensures data.materials == old(data.materials) && data.removed == old(data.removed) &&
            data.greasePencils == old(data.greasePencils)
  {
    if registry.entries == [] {
      RefreshPalettes(registry, data, ready, false, shortName);
    }
  }

  // ----- The `material_palette` enum property -----

  /**
   * `get_material_palette_value`: the position of the stored palette name in
   * the registry, and the stored value afterwards. A missing name yields 0 and
   * is reset to "-"; no stored name yields 0.
   */
  function GetMaterialPaletteValue(stored: Option<string>, keys: seq<string>): (r: (nat, Option<string>))
    ensures stored.None? ==> r == (0, None)
    ensures stored.Some? && stored.value in keys ==>
              r.0 < |keys| && keys[r.0] == stored.value && stored.value !in keys[..r.0] && r.1 == stored
    ensures stored.Some? && stored.value !in keys ==> r == (0, Some(DEFAULT_PALETTE_ID))
  {
    if stored.None? then (0, None)
    else match IndexOf(keys, stored.value)
      case Some(i) => (i, stored)
      case None => (0, Some(DEFAULT_PALETTE_ID))
  }

  /**
   * `set_material_palette_value`: the palette name at `index` in registry
   * order, with Python's negative indexing; IndexError outside the list.
   */
  function SetMaterialPaletteValue(keys: seq<string>, index: int): (r: Result<string, PyException>)
    ensures r.Err? <==> !(-|keys| <= index < |keys|)
    ensures r.Err? ==> r.error == IndexError
    ensures 0 <= index < |keys| ==> r == Ok(keys[index])
    ensures -|keys| <= index < 0 ==> r == Ok(keys[|keys| + index])
  {
    if 0 <= index < |keys| then Ok(keys[index])
    else if -|keys| <= index < 0 then Ok(keys[|keys| + index])
    else Err(IndexError)
  }

  /** With distinct registry keys, reading the enum after setting index `i` gives `i` back. */
  lemma GetAfterSet(keys: seq<string>, i: nat)
    requires Distinct(keys) && i < |keys|
    ensures SetMaterialPaletteValue(keys, i).Ok?
    ensures GetMaterialPaletteValue(Some(SetMaterialPaletteValue(keys, i).value), keys).0 == i
  {
    assert keys[i] in keys;
    var r := GetMaterialPaletteValue(Some(keys[i]), keys);
    assert keys[r.0] == keys[i];
  }

  /** Setting the index that reading a registered name gives stores that same name. */
  lemma SetAfterGet(keys: seq<string>, name: string)
    requires name in keys
    ensures SetMaterialPaletteValue(keys, GetMaterialPaletteValue(Some(name), keys).0) == Ok(name)
  {
  }

  /**
   * `get_material_palettes_enum_items`: the registry's palettes in order,
   * each with its registry index, leaving out the vertex color palette.
   */
  function EnumItems(keys: seq<string>): (r: seq<(string, nat)>)
    ensures forall item :: item in r <==> item.1 < |keys| && keys[item.1] == item.0 && item.0 != VERTEXCOLOR_PALETTE
    ensures forall a, b :: 0 <= a < b < |r| ==> r[a].1 < r[b].1
  {
    if keys == [] then []
    else
      var n := |keys| - 1;
      var rest := EnumItems(keys[..n]);
      assert forall item :: item in rest ==> item.1 < n;
      assert forall i :: 0 <= i < n ==> keys[..n][i] == keys[i];
      rest + (if keys[n] != VERTEXCOLOR_PALETTE then [(keys[n], n)] else [])
  }

  /** The enum items builder: an empty registry is refreshed first. */
  method MaterialPalettesEnumItems(registry: PaletteRegistry, data: BlendData, ready: bool, shortName: string -> string)
    returns (items: seq<(string, nat)>)
    modifies registry, data
    ensures old(registry.entries) != [] ==> registry.entries == old(registry.entries)
    ensures old(registry.entries) == [] && ready ==> registry.entries == RegistryFor(data.materials, data.removed)
    ensures data.materials == old(data.materials) && data.removed == old(data.removed) &&
            data.greasePencils == old(data.greasePencils)
    ensures items == EnumItems(Keys(registry.entries))
  {
    InitializePalettes(registry, data, ready, shortName);
    items := EnumItems(Keys(registry.entries));
  }
}
