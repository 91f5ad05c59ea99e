/**
 * An insertion-ordered Python dict from keys to lists of ids, filled by the idiom
 * `if k not in d: d[k] = []` followed by `d[k].append(id)`. Both the material
 * palettes registry and the duplicate-candidate groups of the cleanup are built
 * this way.
 */
module OrderedGroups {
  import opened Wrappers
  import opened Seqs

  type Groups<K> = seq<(K, seq<nat>)>

  /** `list(d)`: the keys in insertion order. */
  function Keys<K>(gs: Groups<K>): (r: seq<K>)
    ensures |r| == |gs|
    ensures forall i :: 0 <= i < |gs| ==> r[i] == gs[i].0
  {
    if gs == [] then [] else [gs[0].0] + Keys(gs[1..])
  }

  /** `d.get(k, [])`. */
  function Lookup<K(==)>(gs: Groups<K>, k: K): seq<nat> {
    if gs == [] then [] else if gs[0].0 == k then gs[0].1 else Lookup(gs[1..], k)
  }

  /** `if k not in d: d[k] = []` then `d[k].append(id)`. */
  function AddTo<K(==)>(gs: Groups<K>, k: K, id: nat): (r: Groups<K>)
    ensures Keys(r) == if k in Keys(gs) then Keys(gs) else Keys(gs) + [k]
  {
    if gs == [] then [(k, [id])]
    else if gs[0].0 == k then [(k, gs[0].1 + [id])] + gs[1..]
    else
      var rest := AddTo(gs[1..], k, id);
      assert Keys(gs) == [gs[0].0] + Keys(gs[1..]);
      [gs[0]] + rest
  }

  /**
   * Runs the insertion idiom over `entries` in order, starting from `init`; an
   * entry whose key is None is discarded.
   */
  function Group<K(==)>(entries: seq<(Option<K>, nat)>, init: Groups<K>): Groups<K> {
    if entries == [] then init
    else
      var g := Group(entries[..|entries| - 1], init);
      var e := entries[|entries| - 1];
      if e.0.Some? then AddTo(g, e.0.value, e.1) else g
  }

  /** The ids of the entries filed under `k`, in entry order. */
  function Selected<K(==)>(entries: seq<(Option<K>, nat)>, k: K): seq<nat> {
    if entries == [] then []
    else
      var e := entries[|entries| - 1];
      Selected(entries[..|entries| - 1], k) + (if e.0 == Some(k) then [e.1] else [])
  }

  lemma {:induction false} AddToLookup<K>(gs: Groups<K>, k: K, id: nat, k': K)
    ensures Lookup(AddTo(gs, k, id), k') == Lookup(gs, k') + (if k == k' then [id] else [])
  {
    if gs != [] && gs[0].0 != k {
      AddToLookup(gs[1..], k, id, k');
    }
  }

  /** Keys are never repeated, so `list(d).index(k)` is well defined. */
  lemma {:induction false} AddToDistinct<K>(gs: Groups<K>, k: K, id: nat)
    requires Distinct(Keys(gs))
    ensures Distinct(Keys(AddTo(gs, k, id)))
  {
    var ks := Keys(gs);
    if k !in ks {
      forall i, j | 0 <= i < j < |ks| + 1
        ensures (ks + [k])[i] != (ks + [k])[j]
      {
        if j == |ks| {
          assert ks[i] in ks;
        }
      }
    }
  }

  /** Every list of the result holds the list of `init` followed by the ids filed under its key. */
  lemma {:induction false} GroupLookup<K>(entries: seq<(Option<K>, nat)>, init: Groups<K>, k: K)
    ensures Lookup(Group(entries, init), k) == Lookup(init, k) + Selected(entries, k)
  {
    if entries != [] {
      var e := entries[|entries| - 1];
      GroupLookup(entries[..|entries| - 1], init, k);
      if e.0.Some? {
        AddToLookup(Group(entries[..|entries| - 1], init), e.0.value, e.1, k);
      }
    }
  }

  /**
   * The keys of the result are those of `init`, still first and in the same
   * order, then the new keys of the entries; no key appears twice.
   */
  lemma {:induction false} GroupKeys<K>(entries: seq<(Option<K>, nat)>, init: Groups<K>)
    requires Distinct(Keys(init))
    ensures Distinct(Keys(Group(entries, init)))
    ensures |Keys(init)| <= |Keys(Group(entries, init))|
    ensures Keys(Group(entries, init))[..|Keys(init)|] == Keys(init)
    ensures forall k :: k in Keys(Group(entries, init)) <==>
                          k in Keys(init) || Some(k) in EntryKeys(entries)
  {
    if entries != [] {
      var prefix := entries[..|entries| - 1];
      var e := entries[|entries| - 1];
      GroupKeys(prefix, init);
      assert EntryKeys(entries) == EntryKeys(prefix) + [e.0];
      if e.0.Some? {
        AddToDistinct(Group(prefix, init), e.0.value, e.1);
      }
    }
  }

  /** The keys of the entries, None included, in entry order. */
  function EntryKeys<K>(entries: seq<(Option<K>, nat)>): (r: seq<Option<K>>)
    ensures |r| == |entries|
    ensures forall i :: 0 <= i < |entries| ==> r[i] == entries[i].0
  {
    if entries == [] then [] else EntryKeys(entries[..|entries| - 1]) + [entries[|entries| - 1].0]
  }

  /** A key filed by some entry has a non-empty list. */
  lemma {:induction false} SelectedNonEmpty<K>(entries: seq<(Option<K>, nat)>, k: K)
    requires Some(k) in EntryKeys(entries)
    ensures Selected(entries, k) != []
  {
    var prefix := entries[..|entries| - 1];
    if entries[|entries| - 1].0 != Some(k) {
      assert EntryKeys(entries) == EntryKeys(prefix) + [entries[|entries| - 1].0];
      SelectedNonEmpty(prefix, k);
    }
  }

  /** Every id filed under `k` comes from an entry filed under `k`. */
  lemma {:induction false} SelectedFrom<K>(entries: seq<(Option<K>, nat)>, k: K, id: nat)
    requires id in Selected(entries, k)
    ensures (Some(k), id) in entries
  {
    var prefix := entries[..|entries| - 1];
    var e := entries[|entries| - 1];
    if id in Selected(prefix, k) {
      SelectedFrom(prefix, k, id);
    } else {
      assert e == (Some(k), id);
    }
  }

  /** With distinct entry ids, the ids filed under one key are distinct. */
  lemma {:induction false} SelectedDistinct<K>(entries: seq<(Option<K>, nat)>, ids: seq<nat>, k: K)
    requires |ids| == |entries|
    requires forall i :: 0 <= i < |entries| ==> entries[i].1 == ids[i]
    requires Distinct(ids)
    ensures Distinct(Selected(entries, k))
  {
    if entries != [] {
      var n := |entries| - 1;
      var prefix := entries[..n];
      SelectedDistinct(prefix, ids[..n], k);
      if entries[n].0 == Some(k) {
        var s := Selected(prefix, k);
        forall i | 0 <= i < |s| ensures s[i] != entries[n].1 {
          SelectedFrom(prefix, k, s[i]);
          var p :| 0 <= p < n && prefix[p] == (Some(k), s[i]);
          assert ids[p] != ids[n];
        }
      }
    }
  }

  /** With distinct keys, the list stored at position i is the one `d[k]` returns. */
  lemma {:induction false} LookupAt<K>(gs: Groups<K>, i: nat)
    requires i < |gs|
    requires Distinct(Keys(gs))
    ensures Lookup(gs, gs[i].0) == gs[i].1
  {
    if i > 0 {
      assert Keys(gs)[0] != Keys(gs)[i];
      assert Keys(gs[1..]) == Keys(gs)[1..];
      LookupAt(gs[1..], i - 1);
    }
  }

  /**
   * When every entry's id is its own position, the ids filed under `k` are
   * exactly the positions of the entries with key `k`, in ascending order.
   */
  lemma {:induction false} SelectedIndexed<K>(entries: seq<(Option<K>, nat)>, k: K)
    requires forall i :: 0 <= i < |entries| ==> entries[i].1 == i
    ensures forall x: nat :: x in Selected(entries, k) <==> x < |entries| && entries[x].0 == Some(k)
    ensures forall i, j :: 0 <= i < j < |Selected(entries, k)| ==>
                             Selected(entries, k)[i] < Selected(entries, k)[j]
  {
    if entries != [] {
      var n := |entries| - 1;
      var prefix := entries[..n];
      SelectedIndexed(prefix, k);
      var s := Selected(prefix, k);
      var tail := if entries[n].0 == Some(k) then [n] else [];
      assert Selected(entries, k) == s + tail;
      forall x: nat ensures x in s + tail <==> x < |entries| && entries[x].0 == Some(k) {
        if x < n {
          assert prefix[x] == entries[x];
        }
      }
      forall i, j | 0 <= i < j < |s + tail| ensures (s + tail)[i] < (s + tail)[j] {
        if j >= |s| {
          assert s[i] in s;
        }
      }
    }
  }
}
