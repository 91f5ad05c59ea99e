/**
 * Grease pencil materials and their palette names (materials/core.py). A
 * material's name may carry a palette component before the first '/'. A
 * material's identity is its position in the file's material list; removed
 * materials are recorded in a set rather than erased, so identities stay stable.
 */
module Materials {
  import opened Wrappers
  import opened Seqs

  /** The default palette identifier. */
  const DEFAULT_PALETTE_ID: string := "-"

  /** The character separating the palette from the basename. */
  const PALETTE_NAME_SEPARATOR: char := '/'

  /** The internal palette of the vertex color materials. */
  const VERTEXCOLOR_PALETTE: string := "VertexColor"

  /** The grease pencil settings of a material that the similarity test compares. */
  datatype GpStyle = GpStyle(
    showStroke: bool,
    mode: string,
    strokeStyle: string,
    color: seq<real>,
    useStrokeHoldout: bool,
    useOverlapStrokes: bool,
    showFill: bool,
    fillStyle: string,
    fillColor: seq<real>,
    useFillHoldout: bool)

  /** A material datablock: `isLocal` is `not mat.library`. */
  datatype Material = Material(name: string, isGreasePencil: bool, isLocal: bool, style: GpStyle)

  /**
   * A grease pencil datablock: the palette its `material_palette` property
   * reads, and its material slots (ids into the material list, None for an
   * empty slot).
   */
  datatype GpDatablock = GpDatablock(materialPalette: string, materials: seq<Option<nat>>)

  /** The parts of `bpy.data` the palette code reads and changes. */
  class BlendData {
    var materials: seq<Material>
    var removed: set<nat>
    var greasePencils: seq<GpDatablock>

    constructor (materials: seq<Material>, greasePencils: seq<GpDatablock>)
      ensures this.materials == materials && removed == {} && this.greasePencils == greasePencils
    {
      this.materials := materials;
      removed := {};
      this.greasePencils := greasePencils;
    }
  }

  // ----- Names -----

  /**
   * `split_material_name`: `name.split("/", 1)`. Without a separator the name
   * comes back whole; otherwise it is cut at the first separator only, and
   * joining the two parts with the separator gives the name back.
   */
  function SplitMaterialName(name: string): (r: seq<string>)
    ensures |r| == 1 || |r| == 2
    ensures |r| == 1 <==> PALETTE_NAME_SEPARATOR !in name
    ensures |r| == 1 ==> r[0] == name
    ensures |r| == 2 ==> r[0] + [PALETTE_NAME_SEPARATOR] + r[1] == name && PALETTE_NAME_SEPARATOR !in r[0]
  {
    match IndexOf(name, PALETTE_NAME_SEPARATOR)
    case None => [name]
    case Some(i) =>
      assert name == name[..i] + [name[i]] + name[i + 1..];
      [name[..i], name[i + 1..]]
  }

  /** `get_palette_name`: the text before the first separator, if there is one. */
  function GetPaletteName(m: Material): (r: Option<string>)
    ensures r.None? <==> PALETTE_NAME_SEPARATOR !in m.name
    ensures r.Some? ==> PALETTE_NAME_SEPARATOR !in r.value && |r.value| < |m.name| &&
                        m.name[..|r.value|] == r.value && m.name[|r.value|] == PALETTE_NAME_SEPARATOR
  {
    var split := SplitMaterialName(m.name);
    if |split| > 1 then
      assert m.name == split[0] + [PALETTE_NAME_SEPARATOR] + split[1];
      assert m.name[..|split[0]|] == split[0];
      Some(split[0])
    else None
  }

  /** `get_material_basename`: the last part of the split. */
  function GetMaterialBasename(m: Material): (r: string)
    ensures PALETTE_NAME_SEPARATOR !in m.name ==> r == m.name
  {
    var split := SplitMaterialName(m.name);
    split[|split| - 1]
  }

  /**
   * Palette and basename recompose the name: the basename is the whole name
   * without a palette, and everything after the first separator otherwise
   * (separators included).
   */
  lemma NameRoundTrip(m: Material)
    ensures GetPaletteName(m).None? ==> GetMaterialBasename(m) == m.name
    ensures GetPaletteName(m).Some? ==>
      GetPaletteName(m).value + [PALETTE_NAME_SEPARATOR] + GetMaterialBasename(m) == m.name
  {
  }

  /** A name such as "A/B/C" has palette "A" and basename "B/C". */
  lemma NameSplitsAtFirstSeparator()
    ensures var m := Material("A/B/C", true, true, GpStyle(true, "", "", [], false, false, true, "", [], false));
      GetPaletteName(m) == Some("A") && GetMaterialBasename(m) == "B/C"
  {
    var m := Material("A/B/C", true, true, GpStyle(true, "", "", [], false, false, true, "", [], false));
    assert m.name[0] == 'A' && m.name[1..][0] == '/';
    assert IndexOf(m.name, PALETTE_NAME_SEPARATOR) == Some(1);
    assert m.name[..1] == "A" && m.name[2..] == "B/C";
  }

  /** `has_valid_palette_name`: the palette component is a registered palette. */
  predicate HasValidPaletteName(m: Material, palettes: seq<string>) {
    GetPaletteName(m).Some? && GetPaletteName(m).value in palettes
  }

  // ----- Material queries -----

  /** A material that is still in the file. */
  predicate Live(materials: seq<Material>, removed: set<nat>, id: nat) {
    id < |materials| && id !in removed
  }

  /** The condition of `get_grease_pencil_materials`. */
  predicate IsListedGpMaterial(materials: seq<Material>, removed: set<nat>, onlyLocal: bool, id: nat) {
    Live(materials, removed, id) && materials[id].isGreasePencil && (materials[id].isLocal || !onlyLocal)
  }

  /** `range(n)`: the positions below `n`, in order. */
  function Range(n: nat): (r: seq<nat>)
    ensures |r| == n
    ensures forall i :: 0 <= i < n ==> r[i] == i
    ensures forall i: nat :: i in r <==> i < n
  {
    var s: seq<nat> := seq(n, i requires 0 <= i < n => i);
    forall i: nat ensures i in s <==> i < n {
      if i < n {
        assert s[i] == i;
      }
    }
    s
  }

  /** `get_grease_pencil_materials`: the grease pencil materials in file order, optionally only local ones. */
  function GetGreasePencilMaterials(materials: seq<Material>, removed: set<nat>, onlyLocal: bool): (r: seq<nat>)
    ensures forall id :: id in r <==> IsListedGpMaterial(materials, removed, onlyLocal, id)
  {
    Filter(Range(|materials|), (id: nat) => IsListedGpMaterial(materials, removed, onlyLocal, id))
  }

  // ----- Similarity -----

  /** The number of attributes in `gp_material_comparison_attributes`. */
  const COMPARED_ATTRIBUTES: nat := 10

  /** The value of one compared attribute; colour arrays are compared as lists. */
  datatype AttrValue = Flag(b: bool) | Identifier(s: string) | Color(c: seq<real>)

  /** `getattr(material.grease_pencil, gp_material_comparison_attributes[k])`. */
  function Attribute(s: GpStyle, k: nat): AttrValue
    requires k < COMPARED_ATTRIBUTES
  {
    match k
    case 0 => Flag(s.showStroke)
    case 1 => Identifier(s.mode)
    case 2 => Identifier(s.strokeStyle)
    case 3 => Color(s.color)
    case 4 => Flag(s.useStrokeHoldout)
    case 5 => Flag(s.useOverlapStrokes)
    case 6 => Flag(s.showFill)
    case 7 => Identifier(s.fillStyle)
    case 8 => Color(s.fillColor)
    case _ => Flag(s.useFillHoldout)
  }

  /** All compared attributes are equal. */
  predicate Similar(a: Material, b: Material) {
    forall k :: 0 <= k < COMPARED_ATTRIBUTES ==> Attribute(a.style, k) == Attribute(b.style, k)
  }

  /** Similarity is equality of the compared settings, hence reflexive, symmetric and transitive. */
  lemma SimilarIffSameStyle(a: Material, b: Material)
    ensures Similar(a, b) <==> a.style == b.style
  {
    if Similar(a, b) {
      assert Attribute(a.style, 0) == Attribute(b.style, 0);
      assert Attribute(a.style, 1) == Attribute(b.style, 1);
      assert Attribute(a.style, 2) == Attribute(b.style, 2);
      assert Attribute(a.style, 3) == Attribute(b.style, 3);
      assert Attribute(a.style, 4) == Attribute(b.style, 4);
      assert Attribute(a.style, 5) == Attribute(b.style, 5);
      assert Attribute(a.style, 6) == Attribute(b.style, 6);
      assert Attribute(a.style, 7) == Attribute(b.style, 7);
      assert Attribute(a.style, 8) == Attribute(b.style, 8);
      assert Attribute(a.style, 9) == Attribute(b.style, 9);
    }
  }

  lemma SimilarEquivalence(a: Material, b: Material, c: Material)
    ensures Similar(a, a)
    ensures Similar(a, b) ==> Similar(b, a)
    ensures Similar(a, b) && Similar(b, c) ==> Similar(a, c)
  {
    SimilarIffSameStyle(a, b);
    SimilarIffSameStyle(b, c);
    SimilarIffSameStyle(a, c);
    SimilarIffSameStyle(b, a);
    SimilarIffSameStyle(a, a);
  }

  /**
   * `are_similar_gp_materials`: ValueError unless both materials are grease
   * pencil materials; otherwise whether every compared attribute is equal,
   * stopping at the first difference.
   */
  method AreSimilarGpMaterials(a: Material, b: Material) returns (r: Result<bool, PyException>)
    ensures r.Err? <==> !a.isGreasePencil || !b.isGreasePencil
    ensures r.Err? ==> r.error == ValueError
    ensures r.Ok? ==> (r.value <==> Similar(a, b))
  {
    if !a.isGreasePencil || !b.isGreasePencil {
      return Err(ValueError);
    }
    var k := 0;
    while k < COMPARED_ATTRIBUTES
      invariant 0 <= k <= COMPARED_ATTRIBUTES
      invariant forall q :: 0 <= q < k ==> Attribute(a.style, q) == Attribute(b.style, q)
    {
      if Attribute(a.style, k) != Attribute(b.style, k) {
        return Ok(false);
      }
      k := k + 1;
    }
    return Ok(true);
  }
}
