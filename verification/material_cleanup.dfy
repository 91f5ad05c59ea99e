/**
 * `cleanup_duplicated_materials` (materials/core.py:128-164): local grease
 * pencil materials that carry a palette are grouped by their name without the
 * auto-numbering suffix; inside a group, every material with the same settings
 * as an earlier, kept material is removed and its users are remapped to that
 * material. The suffix-stripping helper is not part of this model and comes in
 * as the parameter `shortName`.
 */
module MaterialCleanup {
  import opened Wrappers
  import opened Seqs
  import opened OrderedGroups
  import opened Materials

  // ----- Grouping -----

  /**
   * The group key of material `id`, or None when the first pass skips it: it
   * is not a live, local grease pencil material, or its palette is missing or
   * empty (`if not get_palette_name(mat)`).
   */
  function CleanupKey(mats: seq<Material>, removed: set<nat>, shortName: string -> string, id: nat): (r: Option<string>)
    ensures r.Some? <==>
      IsListedGpMaterial(mats, removed, true, id) &&
      PALETTE_NAME_SEPARATOR in mats[id].name && mats[id].name[0] != PALETTE_NAME_SEPARATOR
    ensures r.Some? ==> r.value == shortName(mats[id].name)
  {
    if !IsListedGpMaterial(mats, removed, true, id) then None
    else
      var palette := GetPaletteName(mats[id]);
      if palette.None? || palette.value == "" then None
      else
        assert mats[id].name[0] == palette.value[0];
        Some(shortName(mats[id].name))
  }

  /** One entry per material, in file order, for the grouping idiom. */
  function CleanupEntries(mats: seq<Material>, removed: set<nat>, shortName: string -> string): (r: seq<(Option<string>, nat)>)
    ensures |r| == |mats|
    ensures forall id :: 0 <= id < |mats| ==> r[id] == (CleanupKey(mats, removed, shortName, id), id)
  {
    seq(|mats|, id requires 0 <= id < |mats| => (CleanupKey(mats, removed, shortName, id), id))
  }

  // ----- Specification of the outcome -----

  /** Material `q` is in the same group as `id` and has the same compared settings. */
  predicate Twins(mats: seq<Material>, removed: set<nat>, shortName: string -> string, q: nat, id: nat) {
    CleanupKey(mats, removed, shortName, q).Some? &&
    CleanupKey(mats, removed, shortName, q) == CleanupKey(mats, removed, shortName, id) &&
    mats[q].style == mats[id].style
  }

  /** The lowest id below both `bound` and `id` that is a twin of `id`. */
  function EarliestTwinBelow(mats: seq<Material>, removed: set<nat>, shortName: string -> string, id: nat, bound: nat): (r: Option<nat>)
    ensures r.None? <==> forall q :: 0 <= q < bound && q < id ==> !Twins(mats, removed, shortName, q, id)
    ensures r.Some? ==> r.value < bound && r.value < id && Twins(mats, removed, shortName, r.value, id) &&
                        forall q :: 0 <= q < r.value ==> !Twins(mats, removed, shortName, q, id)
  {
    var twin := (q: nat) => q < id && Twins(mats, removed, shortName, q, id);
    var r := FirstBelow(twin, bound);
    assert forall q: nat :: twin(q) <==> q < id && Twins(mats, removed, shortName, q, id);
    r
  }

  /**
   * The material that `id` is merged into: the first earlier material of its
   * group with the same settings; None when `id` survives the cleanup.
   */
  function Keeper(mats: seq<Material>, removed: set<nat>, shortName: string -> string, id: nat): Option<nat> {
    EarliestTwinBelow(mats, removed, shortName, id, id)
  }

  /** A material's keeper is itself kept, so one remapping step is enough. */
  lemma KeeperSurvives(mats: seq<Material>, removed: set<nat>, shortName: string -> string, id: nat)
    requires Keeper(mats, removed, shortName, id).Some?
    ensures var k := Keeper(mats, removed, shortName, id).value;
      k < id && CleanupKey(mats, removed, shortName, k) == CleanupKey(mats, removed, shortName, id) &&
      Similar(mats[k], mats[id]) && Keeper(mats, removed, shortName, k).None?
  {
    var k := Keeper(mats, removed, shortName, id).value;
    SimilarIffSameStyle(mats[k], mats[id]);
    if Keeper(mats, removed, shortName, k).Some? {
      var q := Keeper(mats, removed, shortName, k).value;
      assert Twins(mats, removed, shortName, q, id);
      assert false;
    }
  }

  /**
   * The first material of a group is never removed, and of two materials of
   * one group with the same settings the later one is always removed: the
   * survivors of a group are pairwise not similar.
   */
  lemma SurvivorsDiffer(mats: seq<Material>, removed: set<nat>, shortName: string -> string, a: nat, b: nat)
    requires a < b
    requires Keeper(mats, removed, shortName, a).None? && Keeper(mats, removed, shortName, b).None?
    requires CleanupKey(mats, removed, shortName, a).Some?
    requires CleanupKey(mats, removed, shortName, a) == CleanupKey(mats, removed, shortName, b)
    ensures !Similar(mats[a], mats[b])
  {
    SimilarIffSameStyle(mats[a], mats[b]);
    assert !Twins(mats, removed, shortName, a, b);
  }

  /** A material with no earlier member in its group (or no group) is kept. */
  lemma FirstOfGroupKept(mats: seq<Material>, removed: set<nat>, shortName: string -> string, id: nat)
    requires forall q :: 0 <= q < id ==> CleanupKey(mats, removed, shortName, q) != CleanupKey(mats, removed, shortName, id)
    ensures Keeper(mats, removed, shortName, id).None?
  {
  }

  // ----- The scan of one group -----

  /** Every position of `l` names a grease pencil material. */
  predicate GpIds(mats: seq<Material>, l: seq<nat>) {
    forall p :: 0 <= p < |l| ==> l[p] < |mats| && mats[l[p]].isGreasePencil
  }

  /** The first position below both `bound` and `p` whose material has the settings of `l[p]`. */
  function FirstSimilarBelow(mats: seq<Material>, l: seq<nat>, p: nat, bound: nat): (r: Option<nat>)
    requires GpIds(mats, l) && p < |l| && bound <= |l|
    ensures r.None? <==> forall q :: 0 <= q < bound && q < p ==> mats[l[q]].style != mats[l[p]].style
    ensures r.Some? ==> r.value < bound && r.value < p && mats[l[r.value]].style == mats[l[p]].style &&
                        forall q :: 0 <= q < r.value ==> mats[l[q]].style != mats[l[p]].style
    decreases bound
  {
    if bound == 0 then None
    else match FirstSimilarBelow(mats, l, p, bound - 1)
      case Some(q) => Some(q)
      case None =>
        if bound - 1 < p && mats[l[bound - 1]].style == mats[l[p]].style then Some(bound - 1) else None
  }

  /** The position of the keeper of `l[p]` within the group `l`. */
  function FirstSimilar(mats: seq<Material>, l: seq<nat>, p: nat): Option<nat>
    requires GpIds(mats, l) && p < |l|
  {
    FirstSimilarBelow(mats, l, p, |l|)
  }

  /** `keepers` records the keeper of `l[p]` as found among the positions below `bound`. */
  ghost predicate Matches(mats: seq<Material>, l: seq<nat>, keepers: map<nat, nat>, p: nat, bound: nat)
    requires GpIds(mats, l) && p < |l| && bound <= |l|
  {
    (l[p] in keepers <==> FirstSimilarBelow(mats, l, p, bound).Some?) &&
    (l[p] in keepers ==> keepers[l[p]] == l[FirstSimilarBelow(mats, l, p, bound).value])
  }

  /** The bound up to which the keeper of `l[p]` has been searched once `l[i]` has been compared with the positions before `j`. */
  function ScanBound(i: nat, j: nat, p: nat): nat {
    if i < p < j then i + 1 else i
  }

  /** A material that has already been orphaned shares its settings with an earlier one, so it orphans nothing new. */
  lemma {:induction false} SkipOrphan(mats: seq<Material>, l: seq<nat>, keepers: map<nat, nat>, i: nat)
    requires GpIds(mats, l) && i < |l|
    requires FirstSimilarBelow(mats, l, i, i).Some?
    requires forall p :: 0 <= p < |l| ==> Matches(mats, l, keepers, p, i)
    ensures var next := i + 1; forall p :: 0 <= p < |l| ==> Matches(mats, l, keepers, p, next)
  {
    var q := FirstSimilarBelow(mats, l, i, i).value;
    var next := i + 1;
    forall p | 0 <= p < |l| ensures Matches(mats, l, keepers, p, next) {
      if i < p && mats[l[i]].style == mats[l[p]].style {
        assert mats[l[q]].style == mats[l[p]].style;
      }
      assert FirstSimilarBelow(mats, l, p, next) == FirstSimilarBelow(mats, l, p, i);
      assert Matches(mats, l, keepers, p, i);
    }
  }

  /**
   * Comparing a kept material at position `i` with the one at `j`: when they
   * are similar, `l[i]` becomes the keeper of `l[j]`.
   */
  lemma {:induction false} KeepStep(mats: seq<Material>, l: seq<nat>, keepers: map<nat, nat>, keepers': map<nat, nat>,
                                    i: nat, j: nat, next: nat, similar: bool)
    requires GpIds(mats, l) && Distinct(l) && i < j < |l|
    requires FirstSimilarBelow(mats, l, i, i).None?
    requires similar <==> mats[l[i]].style == mats[l[j]].style
    requires forall p :: 0 <= p < |l| ==> Matches(mats, l, keepers, p, ScanBound(i, j, p))
    requires keepers' == if similar then keepers[l[j] := l[i]] else keepers
    requires next == j + 1
    ensures forall p :: 0 <= p < |l| ==> Matches(mats, l, keepers', p, ScanBound(i, next, p))
  {
    forall p | 0 <= p < |l| ensures Matches(mats, l, keepers', p, ScanBound(i, next, p)) {
      KeepStepAt(mats, l, keepers, keepers', i, j, next, similar, p);
    }
  }

  /** `KeepStep` at position `p`. */
  lemma KeepStepAt(mats: seq<Material>, l: seq<nat>, keepers: map<nat, nat>, keepers': map<nat, nat>,
                   i: nat, j: nat, next: nat, similar: bool, p: nat)
    requires GpIds(mats, l) && Distinct(l) && i < j < |l| && p < |l|
    requires FirstSimilarBelow(mats, l, i, i).None?
    requires similar <==> mats[l[i]].style == mats[l[j]].style
    requires Matches(mats, l, keepers, p, ScanBound(i, j, p))
    requires keepers' == if similar then keepers[l[j] := l[i]] else keepers
    requires next == j + 1
    ensures Matches(mats, l, keepers', p, ScanBound(i, next, p))
  {
    if p == j {
      assert ScanBound(i, j, p) == i && ScanBound(i, next, p) == i + 1;
      if similar {
        forall q | 0 <= q < i ensures mats[l[q]].style != mats[l[j]].style {
          assert mats[l[q]].style != mats[l[i]].style;
        }
        assert FirstSimilarBelow(mats, l, j, i).None?;
        assert FirstSimilarBelow(mats, l, j, i + 1) == Some(i);
        assert keepers'[l[j]] == l[i];
      } else {
        assert FirstSimilarBelow(mats, l, j, i + 1) == FirstSimilarBelow(mats, l, j, i);
      }
    } else {
      assert ScanBound(i, next, p) == ScanBound(i, j, p);
      assert l[p] != l[j];
      assert l[p] in keepers' <==> l[p] in keepers;
      assert l[p] in keepers ==> keepers'[l[p]] == keepers[l[p]];
    }
  }

  /** Positions up to `i` cannot have `l[i]` as an earlier twin. */
  lemma {:induction false} ScanDone(mats: seq<Material>, l: seq<nat>, keepers: map<nat, nat>, i: nat)
    requires GpIds(mats, l) && i < |l|
    requires forall p :: 0 <= p < |l| ==> Matches(mats, l, keepers, p, ScanBound(i, |l|, p))
    ensures var next := i + 1; forall p :: 0 <= p < |l| ==> Matches(mats, l, keepers, p, next)
  {
    var next := i + 1;
    forall p | 0 <= p < |l| ensures Matches(mats, l, keepers, p, next) {
      assert Matches(mats, l, keepers, p, ScanBound(i, |l|, p));
      if p <= i {
        assert FirstSimilarBelow(mats, l, p, next) == FirstSimilarBelow(mats, l, p, i);
      }
    }
  }

  /** The inner loop of the scan: every later material similar to the kept `l[i]` is remapped to it. */
  method RemapLaterTwins(mats: seq<Material>, l: seq<nat>, keepers: map<nat, nat>, i: nat) returns (keepers': map<nat, nat>)
    requires GpIds(mats, l) && Distinct(l) && i < |l|
    requires FirstSimilarBelow(mats, l, i, i).None?
    requires forall p :: 0 <= p < |l| ==> Matches(mats, l, keepers, p, i)
    requires forall id :: id in keepers ==> id in l
    ensures forall p :: 0 <= p < |l| ==> Matches(mats, l, keepers', p, ScanBound(i, |l|, p))
    ensures forall id :: id in keepers' ==> id in l
  {
    keepers' := keepers;
    for j := i + 1 to |l|
      invariant forall p :: 0 <= p < |l| ==> Matches(mats, l, keepers', p, ScanBound(i, j, p))
      invariant forall id :: id in keepers' ==> id in l
    {
      var similar := AreSimilarGpMaterials(mats[l[i]], mats[l[j]]);
      SimilarIffSameStyle(mats[l[i]], mats[l[j]]);
      ghost var before := keepers';
      if similar.value {
        keepers' := keepers'[l[j] := l[i]];
      }
      KeepStep(mats, l, before, keepers', i, j, j + 1, similar.value);
    }
  }

  /**
   * The second pass over one group (lines 146-161): for each material not yet
   * orphaned, every later material similar to it is remapped to it. The result
   * maps each orphaned material to the material its users are remapped to.
   */
  method ScanGroup(mats: seq<Material>, l: seq<nat>) returns (keepers: map<nat, nat>)
    requires GpIds(mats, l) && Distinct(l)
    ensures forall p :: 0 <= p < |l| ==> (l[p] in keepers <==> FirstSimilar(mats, l, p).Some?)
    ensures forall p :: 0 <= p < |l| && l[p] in keepers ==> keepers[l[p]] == l[FirstSimilar(mats, l, p).value]
    ensures forall id :: id in keepers ==> id in l
  {
    keepers := map[];
    if |l| == 1 {
      assert FirstSimilar(mats, l, 0).None?;
      return;
    }
    for i := 0 to |l|
      invariant forall p :: 0 <= p < |l| ==> Matches(mats, l, keepers, p, i)
      invariant forall id :: id in keepers ==> id in l
    {
      assert Matches(mats, l, keepers, i, i);
      if l[i] in keepers {
        SkipOrphan(mats, l, keepers, i);
        continue;
      }
      keepers := RemapLaterTwins(mats, l, keepers, i);
      ScanDone(mats, l, keepers, i);
    }
    forall p | 0 <= p < |l|
      ensures (l[p] in keepers <==> FirstSimilar(mats, l, p).Some?)
      ensures l[p] in keepers ==> keepers[l[p]] == l[FirstSimilar(mats, l, p).value]
    {
      assert Matches(mats, l, keepers, p, |l|);
    }
  }

  /**
   * Inside a group listed in file order, the scan's positional keeper is the
   * material `Keeper` names.
   */
  lemma GroupKeeper(mats: seq<Material>, removed: set<nat>, shortName: string -> string, k: string, l: seq<nat>, p: nat)
    requires forall x: nat :: x in l <==> x < |mats| && CleanupKey(mats, removed, shortName, x) == Some(k)
    requires forall i, j :: 0 <= i < j < |l| ==> l[i] < l[j]
    requires p < |l|
    requires GpIds(mats, l)
    ensures FirstSimilar(mats, l, p).None? <==> Keeper(mats, removed, shortName, l[p]).None?
    ensures FirstSimilar(mats, l, p).Some? ==>
              Keeper(mats, removed, shortName, l[p]) == Some(l[FirstSimilar(mats, l, p).value])
  {
    if FirstSimilar(mats, l, p).Some? {
      KeeperOfSimilar(mats, removed, shortName, k, l, p);
    } else if Keeper(mats, removed, shortName, l[p]).Some? {
      var q := TwinPosition(mats, removed, shortName, k, l, p, Keeper(mats, removed, shortName, l[p]).value);
      assert false;
    }
  }

  /** When some earlier position has the settings of `l[p]`, the first such one holds its keeper. */
  lemma KeeperOfSimilar(mats: seq<Material>, removed: set<nat>, shortName: string -> string, k: string, l: seq<nat>, p: nat)
    requires forall x: nat :: x in l <==> x < |mats| && CleanupKey(mats, removed, shortName, x) == Some(k)
    requires forall i, j :: 0 <= i < j < |l| ==> l[i] < l[j]
    requires p < |l|
    requires GpIds(mats, l)
    requires FirstSimilar(mats, l, p).Some?
    ensures Keeper(mats, removed, shortName, l[p]) == Some(l[FirstSimilar(mats, l, p).value])
  {
    var id := l[p];
    var f := FirstSimilar(mats, l, p).value;
    var x := l[f];
    assert id in l && x in l && x < id;
    KeeperAtMost(mats, removed, shortName, id, x);
    var y := Keeper(mats, removed, shortName, id).value;
    var q := TwinPosition(mats, removed, shortName, k, l, p, y);
    FirstSimilarAtMost(mats, l, p, q);
    AscendingIndex(l, q, f);
  }

  /** In a strictly ascending sequence, values are ordered as their positions. */
  lemma AscendingIndex(l: seq<nat>, a: nat, b: nat)
    requires forall i, j :: 0 <= i < j < |l| ==> l[i] < l[j]
    requires a < |l| && b < |l| && l[a] <= l[b]
    ensures a <= b
  {
  }

  /** A twin below `id` bounds its keeper from above. */
  lemma KeeperAtMost(mats: seq<Material>, removed: set<nat>, shortName: string -> string, id: nat, x: nat)
    requires x < id && Twins(mats, removed, shortName, x, id)
    ensures Keeper(mats, removed, shortName, id).Some? && Keeper(mats, removed, shortName, id).value <= x
  {
  }

  /** An earlier position with the settings of `l[p]` bounds its first such position from above. */
  lemma FirstSimilarAtMost(mats: seq<Material>, l: seq<nat>, p: nat, q: nat)
    requires GpIds(mats, l) && q < p < |l| && mats[l[q]].style == mats[l[p]].style
    ensures FirstSimilar(mats, l, p).Some? && FirstSimilar(mats, l, p).value <= q
  {
  }

  /** A twin of `l[p]` below it sits at an earlier position of the group, with the same settings. */
  lemma TwinPosition(mats: seq<Material>, removed: set<nat>, shortName: string -> string, k: string, l: seq<nat>, p: nat, y: nat)
      returns (q: nat)
    requires forall x: nat :: x in l <==> x < |mats| && CleanupKey(mats, removed, shortName, x) == Some(k)
    requires forall i, j :: 0 <= i < j < |l| ==> l[i] < l[j]
    requires p < |l| && y < l[p] && Twins(mats, removed, shortName, y, l[p])
    ensures q < p && l[q] == y && mats[l[q]].style == mats[l[p]].style
  {
    assert l[p] in l;
    assert y in l;
    q :| 0 <= q < |l| && l[q] == y;
  }

  /** `plan` holds exactly the orphans of the groups whose keys are in `ks`, with their keepers. */
  ghost predicate PlanCovers(mats: seq<Material>, removed: set<nat>, shortName: string -> string, plan: map<nat, nat>, ks: seq<string>) {
    (forall id: nat :: id in plan <==>
      CleanupKey(mats, removed, shortName, id).Some? &&
      CleanupKey(mats, removed, shortName, id).value in ks &&
      Keeper(mats, removed, shortName, id).Some?) &&
    (forall id :: id in plan ==> plan[id] == Keeper(mats, removed, shortName, id).value)
  }

  /** The duplicate-candidate groups: material ids by group key, in file order. */
  function CandidateGroups(mats: seq<Material>, removed: set<nat>, shortName: string -> string): (gs: Groups<string>)
    ensures Distinct(Keys(gs))
    ensures forall k :: k in Keys(gs) <==> exists id :: 0 <= id < |mats| && CleanupKey(mats, removed, shortName, id) == Some(k)
  {
    var entries := CleanupEntries(mats, removed, shortName);
    GroupKeys(entries, []);
    forall k ensures Some(k) in EntryKeys(entries) <==>
                     exists id :: 0 <= id < |mats| && CleanupKey(mats, removed, shortName, id) == Some(k) {
      if Some(k) in EntryKeys(entries) {
        var id :| 0 <= id < |mats| && EntryKeys(entries)[id] == Some(k);
      }
      if exists id :: 0 <= id < |mats| && CleanupKey(mats, removed, shortName, id) == Some(k) {
        var id :| 0 <= id < |mats| && CleanupKey(mats, removed, shortName, id) == Some(k);
        assert EntryKeys(entries)[id] == Some(k);
      }
    }
    Group(entries, [])
  }

  /**
   * The group at position `g` lists, in ascending order, exactly the
   * materials whose key is its key.
   */
  lemma GroupAt(mats: seq<Material>, removed: set<nat>, shortName: string -> string, g: nat)
    requires g < |CandidateGroups(mats, removed, shortName)|
    ensures var gs := CandidateGroups(mats, removed, shortName);
      var l := gs[g].1;
      (forall x: nat :: x in l <==> x < |mats| && CleanupKey(mats, removed, shortName, x) == Some(gs[g].0)) &&
      (forall i, j :: 0 <= i < j < |l| ==> l[i] < l[j]) &&
      Distinct(l) && GpIds(mats, l)
  {
    var gs := CandidateGroups(mats, removed, shortName);
    var entries := CleanupEntries(mats, removed, shortName);
    var k := gs[g].0;
    var l := gs[g].1;
    LookupAt(gs, g);
    GroupLookup(entries, [], k);
    SelectedIndexed(entries, k);
    assert Distinct(l) by {
      forall i, j | 0 <= i < j < |l| ensures l[i] != l[j] {
        assert l[i] < l[j];
      }
    }
    assert GpIds(mats, l) by {
      forall p | 0 <= p < |l| ensures l[p] < |mats| && mats[l[p]].isGreasePencil {
        assert l[p] in l;
      }
    }
  }

  /** Adding the orphans of one more group. */
  lemma PlanStep(mats: seq<Material>, removed: set<nat>, shortName: string -> string,
                 plan: map<nat, nat>, ks: seq<string>, k: string, l: seq<nat>, keepers: map<nat, nat>)
    requires PlanCovers(mats, removed, shortName, plan, ks)
    requires k !in ks
    requires forall x: nat :: x in l <==> x < |mats| && CleanupKey(mats, removed, shortName, x) == Some(k)
    requires forall i, j :: 0 <= i < j < |l| ==> l[i] < l[j]
    requires GpIds(mats, l)
    requires forall p :: 0 <= p < |l| ==> (l[p] in keepers <==> FirstSimilar(mats, l, p).Some?)
    requires forall p :: 0 <= p < |l| && l[p] in keepers ==> keepers[l[p]] == l[FirstSimilar(mats, l, p).value]
    requires forall id :: id in keepers ==> id in l
    ensures PlanCovers(mats, removed, shortName, plan + keepers, ks + [k])
  {
    forall id: nat
      ensures id in plan + keepers <==>
                CleanupKey(mats, removed, shortName, id).Some? &&
                CleanupKey(mats, removed, shortName, id).value in ks + [k] &&
                Keeper(mats, removed, shortName, id).Some?
      ensures id in plan + keepers ==> (plan + keepers)[id] == Keeper(mats, removed, shortName, id).value
    {
      PlanStepAt(mats, removed, shortName, plan, ks, k, l, keepers, id);
    }
  }

  /** `PlanStep` for one material. */
  lemma PlanStepAt(mats: seq<Material>, removed: set<nat>, shortName: string -> string,
                   plan: map<nat, nat>, ks: seq<string>, k: string, l: seq<nat>, keepers: map<nat, nat>, id: nat)
    requires PlanCovers(mats, removed, shortName, plan, ks)
    requires k !in ks
    requires forall x: nat :: x in l <==> x < |mats| && CleanupKey(mats, removed, shortName, x) == Some(k)
    requires forall i, j :: 0 <= i < j < |l| ==> l[i] < l[j]
    requires GpIds(mats, l)
    requires forall p :: 0 <= p < |l| ==> (l[p] in keepers <==> FirstSimilar(mats, l, p).Some?)
    requires forall p :: 0 <= p < |l| && l[p] in keepers ==> keepers[l[p]] == l[FirstSimilar(mats, l, p).value]
    requires forall id :: id in keepers ==> id in l
    ensures id in plan + keepers <==>
              CleanupKey(mats, removed, shortName, id).Some? &&
              CleanupKey(mats, removed, shortName, id).value in ks + [k] &&
              Keeper(mats, removed, shortName, id).Some?
    ensures id in plan + keepers ==> (plan + keepers)[id] == Keeper(mats, removed, shortName, id).value
  {
    var key := CleanupKey(mats, removed, shortName, id);
    if key == Some(k) {
      assert id in l;
      var p :| 0 <= p < |l| && l[p] == id;
      GroupKeeper(mats, removed, shortName, k, l, p);
      assert id !in plan;
    } else {
      assert id !in l;
      PlanStepOutside(mats, removed, shortName, plan, ks, k, keepers, id);
    }
  }

  /** A material outside the new group keeps its standing in the plan. */
  lemma PlanStepOutside(mats: seq<Material>, removed: set<nat>, shortName: string -> string,
                        plan: map<nat, nat>, ks: seq<string>, k: string, keepers: map<nat, nat>, id: nat)
    requires PlanCovers(mats, removed, shortName, plan, ks)
    requires CleanupKey(mats, removed, shortName, id) != Some(k) && id !in keepers
    ensures id in plan + keepers <==>
              CleanupKey(mats, removed, shortName, id).Some? &&
              CleanupKey(mats, removed, shortName, id).value in ks + [k] &&
              Keeper(mats, removed, shortName, id).Some?
    ensures id in plan + keepers ==> (plan + keepers)[id] == Keeper(mats, removed, shortName, id).value
  {
    var key := CleanupKey(mats, removed, shortName, id);
    assert key.Some? ==> (key.value in ks + [k] <==> key.value in ks);
  }

  /**
   * The orphans of the whole cleanup, each with the material its users are
   * remapped to: exactly the materials that have a keeper.
   */
  method CleanupPlan(mats: seq<Material>, removed: set<nat>, shortName: string -> string) returns (plan: map<nat, nat>)
    ensures forall id: nat :: id in plan <==> Keeper(mats, removed, shortName, id).Some?
    ensures forall id :: id in plan ==> plan[id] == Keeper(mats, removed, shortName, id).value
  {
    var groups := CandidateGroups(mats, removed, shortName);
    plan := map[];
    for g := 0 to |groups|
      invariant PlanCovers(mats, removed, shortName, plan, Keys(groups)[..g])
    {
      plan := CleanupGroup(mats, removed, shortName, groups, g, plan);
    }
    assert Keys(groups)[..|groups|] == Keys(groups);
    PlanCoversAll(mats, removed, shortName, plan, groups);
  }

  /** One group of the cleanup: scans it and adds its orphans to the plan. */
  method CleanupGroup(mats: seq<Material>, removed: set<nat>, shortName: string -> string,
                      groups: Groups<string>, g: nat, plan: map<nat, nat>) returns (plan': map<nat, nat>)
    requires groups == CandidateGroups(mats, removed, shortName) && g < |groups|
    requires PlanCovers(mats, removed, shortName, plan, Keys(groups)[..g])
    ensures PlanCovers(mats, removed, shortName, plan', Keys(groups)[..g + 1])
  {
    var l := groups[g].1;
    GroupAt(mats, removed, shortName, g);
    var keepers := ScanGroup(mats, l);
    assert Keys(groups)[g] !in Keys(groups)[..g];
    PlanStep(mats, removed, shortName, plan, Keys(groups)[..g], groups[g].0, l, keepers);
    assert Keys(groups)[..g + 1] == Keys(groups)[..g] + [groups[g].0];
    plan' := plan + keepers;
  }

  /** Once every group is covered, the plan holds exactly the materials that have a keeper. */
  lemma PlanCoversAll(mats: seq<Material>, removed: set<nat>, shortName: string -> string, plan: map<nat, nat>,
                      groups: Groups<string>)
    requires groups == CandidateGroups(mats, removed, shortName)
    requires PlanCovers(mats, removed, shortName, plan, Keys(groups))
    ensures forall id: nat :: id in plan <==> Keeper(mats, removed, shortName, id).Some?
    ensures forall id :: id in plan ==> plan[id] == Keeper(mats, removed, shortName, id).value
  {
    var ks := Keys(groups);
    forall id: nat | Keeper(mats, removed, shortName, id).Some?
      ensures CleanupKey(mats, removed, shortName, id).Some? && CleanupKey(mats, removed, shortName, id).value in ks
    {
      var q := Keeper(mats, removed, shortName, id).value;
      assert Twins(mats, removed, shortName, q, id);
      assert q < |mats|;
    }
  }

  // ----- Applying the cleanup -----

  /** `user_remap`: a slot holding an orphan is made to hold its keeper. */
  function RemapSlot(mats: seq<Material>, removed: set<nat>, shortName: string -> string, slot: Option<nat>): (r: Option<nat>)
    ensures slot.None? ==> r.None?
    ensures slot.Some? && Keeper(mats, removed, shortName, slot.value).None? ==> r == slot
    ensures slot.Some? && Keeper(mats, removed, shortName, slot.value).Some? ==>
              r.Some? && Twins(mats, removed, shortName, r.value, slot.value) && r.value < slot.value
  {
    if slot.Some? && Keeper(mats, removed, shortName, slot.value).Some? then
      Keeper(mats, removed, shortName, slot.value)
    else slot
  }

  /** The material slots of every grease pencil datablock after the remapping. */
  function RemapUsers(mats: seq<Material>, removed: set<nat>, shortName: string -> string, gps: seq<GpDatablock>): (r: seq<GpDatablock>)
    ensures |r| == |gps|
    ensures forall g :: 0 <= g < |gps| ==>
              r[g].materialPalette == gps[g].materialPalette && |r[g].materials| == |gps[g].materials| &&
              forall s :: 0 <= s < |gps[g].materials| ==>
                r[g].materials[s] == RemapSlot(mats, removed, shortName, gps[g].materials[s])
  {
    seq(|gps|, g requires 0 <= g < |gps| =>
      gps[g].(materials := seq(|gps[g].materials|, s requires 0 <= s < |gps[g].materials| =>
        RemapSlot(mats, removed, shortName, gps[g].materials[s]))))
  }

  /** The materials the cleanup removes. */
  ghost function Orphans(mats: seq<Material>, removed: set<nat>, shortName: string -> string): set<nat> {
    set id | 0 <= id < |mats| && Keeper(mats, removed, shortName, id).Some?
  }

  /** Every material slot holds a material that is still in the file (or is empty). */
  ghost predicate SlotsLive(mats: seq<Material>, removed: set<nat>, gps: seq<GpDatablock>) {
    forall g, s :: 0 <= g < |gps| && 0 <= s < |gps[g].materials| && gps[g].materials[s].Some? ==>
      Live(mats, removed, gps[g].materials[s].value)
  }

  /** After the cleanup no slot refers to a removed material. */
  lemma CleanupKeepsSlotsLive(mats: seq<Material>, removed: set<nat>, shortName: string -> string, gps: seq<GpDatablock>)
    requires SlotsLive(mats, removed, gps)
    ensures SlotsLive(mats, removed + Orphans(mats, removed, shortName), RemapUsers(mats, removed, shortName, gps))
  {
    var r := RemapUsers(mats, removed, shortName, gps);
    forall g, s | 0 <= g < |r| && 0 <= s < |r[g].materials| && r[g].materials[s].Some?
      ensures Live(mats, removed + Orphans(mats, removed, shortName), r[g].materials[s].value)
    {
      var slot := gps[g].materials[s];
      if Keeper(mats, removed, shortName, slot.value).Some? {
        KeeperSurvives(mats, removed, shortName, slot.value);
      }
    }
  }

  /**
   * `cleanup_duplicated_materials`: the orphans' users are remapped to their
   * keepers and the orphans are removed (`batch_remove`).
   */
  method CleanupDuplicatedMaterials(data: BlendData, shortName: string -> string)
    modifies data
    ensures data.materials == old(data.materials)
    ensures data.removed == old(data.removed) + Orphans(old(data.materials), old(data.removed), shortName)
    ensures data.greasePencils == RemapUsers(old(data.materials), old(data.removed), shortName, old(data.greasePencils))
  {
    var mats := data.materials;
    var removed := data.removed;
    var plan := CleanupPlan(mats, removed, shortName);
    var gps := data.greasePencils;
    var result: seq<GpDatablock> := [];
    for g := 0 to |gps|
      invariant |result| == g
      invariant forall h :: 0 <= h < g ==> result[h] == RemapUsers(mats, removed, shortName, gps)[h]
    {
      var slots := gps[g].materials;
      var remapped := seq(|slots|, s requires 0 <= s < |slots| =>
        if slots[s].Some? && slots[s].value in plan then Some(plan[slots[s].value]) else slots[s]);
      assert remapped == RemapUsers(mats, removed, shortName, gps)[g].materials;
      result := result + [gps[g].(materials := remapped)];
    }
    data.greasePencils := result;
    data.removed := removed + plan.Keys;
    assert plan.Keys == Orphans(mats, removed, shortName);
  }
}
