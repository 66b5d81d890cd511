/** The block tables of main.py: the expansion of a hierarchical category
    mapping (`expand_hierarchical_mapping`), the block-ownership table built
    from every source's mapping (`get_block_sources_map`) and the exclusivity
    sort (`sort_blocks_by_exclusivity`). Mappings are Python dictionaries read
    from JSON; they are modelled as their items in insertion order, and the
    files and caches become parameters. */
module BlockTables {
  import opened Wrappers
  import opened Text
  import Sorting

  // ---------------------------------------------------------------------------
  // Ordered dictionaries

  /** A Python dict with string keys, as its items in insertion order. */
  type Entries<V> = seq<(string, V)>

  function Keys<V>(d: Entries<V>): set<string> {
    if d == [] then {} else {d[0].0} + Keys(d[1..])
  }

  /** A JSON object: no key occurs twice. */
  predicate DistinctKeys<V>(d: Entries<V>) {
    forall i, j :: 0 <= i < j < |d| ==> d[i].0 != d[j].0
  }

  /** `d.get(k)`. */
  function Lookup<V>(d: Entries<V>, k: string): Option<V> {
    if d == [] then None else if d[0].0 == k then Some(d[0].1) else Lookup(d[1..], k)
  }

  /** `d[k] = v`: a present key keeps its place, a new one goes last. */
  function Assign<V>(d: Entries<V>, k: string, v: V): Entries<V> {
    if d == [] then [(k, v)]
    else if d[0].0 == k then [(k, v)] + d[1..]
    else [d[0]] + Assign(d[1..], k, v)
  }

  lemma AssignFacts<V>(d: Entries<V>, k: string, v: V)
    ensures Keys(Assign(d, k, v)) == Keys(d) + {k}
    ensures forall k' :: Lookup(Assign(d, k, v), k') == if k' == k then Some(v) else Lookup(d, k')
  {
  }

  lemma KeysAppend<V>(d: Entries<V>, e: (string, V))
    ensures Keys(d + [e]) == Keys(d) + {e.0}
  {
    if d != [] {
      assert (d + [e])[1..] == d[1..] + [e];
    }
  }

  lemma {:induction false} KeysMembers<V>(d: Entries<V>, k: string)
    ensures k in Keys(d) <==> exists i :: 0 <= i < |d| && d[i].0 == k
  {
    if d != [] {
      KeysMembers(d[1..], k);
      if exists i :: 0 <= i < |d| && d[i].0 == k {
        var i :| 0 <= i < |d| && d[i].0 == k;
        if i > 0 {
          assert d[1..][i - 1].0 == k;
        }
      }
      if k in Keys(d[1..]) {
        var i :| 0 <= i < |d| - 1 && d[1..][i].0 == k;
        assert d[i + 1].0 == k;
      }
    }
  }

  // ---------------------------------------------------------------------------
  // expand_hierarchical_mapping

  /** An entry whose blocks are `[]` or `null` heads the children that follow it. */
  predicate IsParent(blocks: Option<seq<string>>) {
    blocks.None? || blocks.value == []
  }

  function BlocksOf(blocks: Option<seq<string>>): seq<string> {
    if blocks.None? then [] else blocks.value
  }

  /** The blocks of entries `a` to `b - 1`, concatenated. */
  function Run(m: Entries<Option<seq<string>>>, a: nat, b: nat): seq<string>
    requires a <= b <= |m|
    decreases b
  {
    if b == a then [] else Run(m, a, b - 1) + BlocksOf(m[b - 1].1)
  }

  /** The index of the first parent at or after `a`, or `|m|`. */
  function NextParent(m: Entries<Option<seq<string>>>, a: nat): (r: nat)
    requires a <= |m|
    ensures a <= r <= |m| && (r < |m| ==> IsParent(m[r].1))
    ensures forall j :: a <= j < r ==> !IsParent(m[j].1)
    decreases |m| - a
  {
    if a == |m| || IsParent(m[a].1) then a else NextParent(m, a + 1)
  }

  /** What a parent at `p` stands for: the blocks of the children after it, up
      to the next parent. */
  function ChildBlocks(m: Entries<Option<seq<string>>>, p: nat): seq<string>
    requires p < |m|
  {
    Run(m, p + 1, NextParent(m, p + 1))
  }

  /** The last parent among the first `n` entries. */
  function LastParent(m: Entries<Option<seq<string>>>, n: nat): (r: Option<nat>)
    requires n <= |m|
    ensures r.Some? ==> r.value < n && IsParent(m[r.value].1)
    ensures forall j :: (if r.Some? then r.value + 1 else 0) <= j < n ==> !IsParent(m[j].1)
  {
    if n == 0 then None else if IsParent(m[n - 1].1) then Some(n - 1) else LastParent(m, n - 1)
  }

  /** The loop variables of `expand_hierarchical_mapping`. */
  datatype ExpandState = ExpandState(expanded: Entries<seq<string>>, currentParent: Option<string>,
                                     parentBlocks: seq<string>)

  /** One iteration of the loop, for the entry `(key, blocks)`. */
  function ExpandStep(st: ExpandState, key: string, blocks: Option<seq<string>>): ExpandState {
    if IsParent(blocks) then
      var saved := if st.currentParent.Some? then Assign(st.expanded, st.currentParent.value, st.parentBlocks)
                   else st.expanded;
      ExpandState(saved, Some(key), [])
    else
      ExpandState(Assign(st.expanded, key, blocks.value), st.currentParent,
                  if st.currentParent.Some? then st.parentBlocks + blocks.value else st.parentBlocks)
  }

  /** The loop state after the first `n` entries. */
  function ExpandPrefix(m: Entries<Option<seq<string>>>, n: nat): ExpandState
    requires n <= |m|
  {
    if n == 0 then ExpandState([], None, []) else ExpandStep(ExpandPrefix(m, n - 1), m[n - 1].0, m[n - 1].1)
  }

  /** After the loop: the last parent is saved. */
  function CloseExpand(st: ExpandState): Entries<seq<string>> {
    if st.currentParent.Some? then Assign(st.expanded, st.currentParent.value, st.parentBlocks) else st.expanded
  }

  function Expand(m: Entries<Option<seq<string>>>): Entries<seq<string>> {
    CloseExpand(ExpandPrefix(m, |m|))
  }

  /** `expand_hierarchical_mapping`. */
  method ExpandHierarchicalMapping(mapping: Entries<Option<seq<string>>>) returns (expanded: Entries<seq<string>>)
    ensures expanded == Expand(mapping)
  {
    expanded := [];
    var currentParent: Option<string> := None;
    var parentBlocks: seq<string> := [];
    var i := 0;
    while i < |mapping|
      invariant 0 <= i <= |mapping|
      invariant ExpandState(expanded, currentParent, parentBlocks) == ExpandPrefix(mapping, i)
    {
      var (key, blocks) := mapping[i];
      if blocks.None? || blocks.value == [] {
        if currentParent.Some? {
          expanded := Assign(expanded, currentParent.value, parentBlocks);
        }
        currentParent := Some(key);
        parentBlocks := [];
      } else {
        expanded := Assign(expanded, key, blocks.value);
        if currentParent.Some? {
          parentBlocks := parentBlocks + blocks.value;
        }
      }
      i := i + 1;
    }
    if currentParent.Some? {
      expanded := Assign(expanded, currentParent.value, parentBlocks);
    }
  }

  /** The key of the parent the loop is collecting for after `n` entries. */
  function OpenKey(m: Entries<Option<seq<string>>>, n: nat): set<string>
    requires n <= |m|
  {
    var p := LastParent(m, n);
    if p.Some? then {m[p.value].0} else {}
  }

  /** What the loop state holds after `n` entries: every child seen so far with
      its own blocks, every closed parent with its children's blocks, the open
      parent with the blocks of the children seen since it. */
  predicate ExpandInv(m: Entries<Option<seq<string>>>, n: nat, st: ExpandState)
    requires n <= |m|
  {
    var p := LastParent(m, n);
    && st.currentParent == (if p.Some? then Some(m[p.value].0) else None)
    && (p.Some? ==> st.parentBlocks == Run(m, p.value + 1, n))
    && Keys(st.expanded) == Keys(m[..n]) - OpenKey(m, n)
    && (forall j :: 0 <= j < n && !IsParent(m[j].1) ==> Lookup(st.expanded, m[j].0) == Some(m[j].1.value))
    && (forall j :: 0 <= j < n && IsParent(m[j].1) && p != Some(j) ==>
          Lookup(st.expanded, m[j].0) == Some(ChildBlocks(m, j)))
  }

  lemma {:induction false} ExpandPrefixInv(m: Entries<Option<seq<string>>>, n: nat)
    requires DistinctKeys(m) && n <= |m|
    ensures ExpandInv(m, n, ExpandPrefix(m, n))
  {
    if n > 0 {
      ExpandPrefixInv(m, n - 1);
      KeysAppend(m[..n - 1], m[n - 1]);
      assert m[..n] == m[..n - 1] + [m[n - 1]];
      KeysMembers(m[..n - 1], m[n - 1].0);
      if IsParent(m[n - 1].1) {
        ParentStep(m, n - 1, ExpandPrefix(m, n - 1));
      } else {
        ChildStep(m, n - 1, ExpandPrefix(m, n - 1));
      }
    }
  }

  lemma {:induction false} ParentStep(m: Entries<Option<seq<string>>>, n: nat, st: ExpandState)
    requires DistinctKeys(m) && n < |m| && IsParent(m[n].1)
    requires ExpandInv(m, n, st)
    requires Keys(m[..n + 1]) == Keys(m[..n]) + {m[n].0} && m[n].0 !in Keys(m[..n])
    ensures ExpandInv(m, n + 1, ExpandStep(st, m[n].0, m[n].1))
  {
    assert LastParent(m, n + 1) == Some(n);
    ParentStepKeys(m, n, st);
    ParentStepLookups(m, n, st);
  }

  /** A parent entry closes the open parent, whose key joins the expanded keys. */
  lemma ParentStepKeys(m: Entries<Option<seq<string>>>, n: nat, st: ExpandState)
    requires DistinctKeys(m) && n < |m| && IsParent(m[n].1)
    requires ExpandInv(m, n, st)
    requires Keys(m[..n + 1]) == Keys(m[..n]) + {m[n].0} && m[n].0 !in Keys(m[..n])
    ensures Keys(ExpandStep(st, m[n].0, m[n].1).expanded) == Keys(m[..n + 1]) - {m[n].0}
  {
    var p := LastParent(m, n);
    if p.Some? {
      AssignFacts(st.expanded, m[p.value].0, st.parentBlocks);
      KeysMembers(m[..n], m[p.value].0);
      assert m[..n][p.value] == m[p.value];
    }
  }

  /** A parent entry leaves every child's blocks and gives the closed parent its run. */
  lemma ParentStepLookups(m: Entries<Option<seq<string>>>, n: nat, st: ExpandState)
    requires DistinctKeys(m) && n < |m| && IsParent(m[n].1)
    requires ExpandInv(m, n, st)
    ensures var st' := ExpandStep(st, m[n].0, m[n].1);
      && (forall j :: 0 <= j < n + 1 && !IsParent(m[j].1) ==> Lookup(st'.expanded, m[j].0) == Some(m[j].1.value))
      && (forall j :: 0 <= j < n + 1 && IsParent(m[j].1) && j != n ==>
            Lookup(st'.expanded, m[j].0) == Some(ChildBlocks(m, j)))
  {
    var p := LastParent(m, n);
    var st' := ExpandStep(st, m[n].0, m[n].1);
    if p.Some? {
      AssignFacts(st.expanded, m[p.value].0, st.parentBlocks);
      assert NextParent(m, p.value + 1) == n;
    }
    forall j | 0 <= j < n + 1 && !IsParent(m[j].1)
      ensures Lookup(st'.expanded, m[j].0) == Some(m[j].1.value)
    {
      assert p.Some? ==> m[j].0 != m[p.value].0;
    }
    forall j | 0 <= j < n + 1 && IsParent(m[j].1) && j != n
      ensures Lookup(st'.expanded, m[j].0) == Some(ChildBlocks(m, j))
    {
      assert p.Some? && j != p.value ==> m[j].0 != m[p.value].0;
    }
  }

  lemma {:induction false} ChildStep(m: Entries<Option<seq<string>>>, n: nat, st: ExpandState)
    requires DistinctKeys(m) && n < |m| && !IsParent(m[n].1)
    requires ExpandInv(m, n, st)
    requires Keys(m[..n + 1]) == Keys(m[..n]) + {m[n].0} && m[n].0 !in Keys(m[..n])
    ensures ExpandInv(m, n + 1, ExpandStep(st, m[n].0, m[n].1))
  {
    var p := LastParent(m, n);
    var st' := ExpandStep(st, m[n].0, m[n].1);
    AssignFacts(st.expanded, m[n].0, m[n].1.value);
    assert LastParent(m, n + 1) == p;
    forall j | 0 <= j < n + 1 && !IsParent(m[j].1)
      ensures Lookup(st'.expanded, m[j].0) == Some(m[j].1.value)
    {
      assert j < n ==> m[j].0 != m[n].0;
    }
    forall j | 0 <= j < n + 1 && IsParent(m[j].1) && p != Some(j)
      ensures Lookup(st'.expanded, m[j].0) == Some(ChildBlocks(m, j))
    {
      assert m[j].0 != m[n].0;
    }
  }

  /** The expansion keeps exactly the keys of the mapping. */
  lemma {:induction false} ExpandKeys(m: Entries<Option<seq<string>>>)
    requires DistinctKeys(m)
    ensures Keys(Expand(m)) == Keys(m)
  {
    var st := ExpandPrefix(m, |m|);
    ExpandPrefixInv(m, |m|);
    assert m[..|m|] == m;
    var p := LastParent(m, |m|);
    if p.Some? {
      AssignFacts(st.expanded, m[p.value].0, st.parentBlocks);
      KeysMembers(m, m[p.value].0);
    }
  }

  /** A child keeps its own blocks. */
  lemma {:induction false} ExpandKeepsChild(m: Entries<Option<seq<string>>>, j: nat)
    requires DistinctKeys(m) && j < |m| && !IsParent(m[j].1)
    ensures Lookup(Expand(m), m[j].0) == Some(m[j].1.value)
  {
    var st := ExpandPrefix(m, |m|);
    ExpandPrefixInv(m, |m|);
    var p := LastParent(m, |m|);
    if p.Some? {
      AssignFacts(st.expanded, m[p.value].0, st.parentBlocks);
      assert m[j].0 != m[p.value].0;
    }
  }

  /** A parent (`[]` or `null`) stands for the blocks of the children that
      follow it, up to the next parent. */
  lemma {:induction false} ExpandParent(m: Entries<Option<seq<string>>>, j: nat)
    requires DistinctKeys(m) && j < |m| && IsParent(m[j].1)
    ensures Lookup(Expand(m), m[j].0) == Some(ChildBlocks(m, j))
  {
    var st := ExpandPrefix(m, |m|);
    ExpandPrefixInv(m, |m|);
    var p := LastParent(m, |m|);
    assert p.Some?;
    AssignFacts(st.expanded, m[p.value].0, st.parentBlocks);
    if j == p.value {
      assert NextParent(m, p.value + 1) == |m|;
    } else {
      assert m[j].0 != m[p.value].0;
    }
  }

  // ---------------------------------------------------------------------------
  // get_block_sources_map

  /** The sources whose mappings are read, in the order they are read. */
  const MappedSources: seq<string> :=
    ["livefootballtickets", "footballticketnet", "sportsevents365", "tixstock", "goldenseat"]

  /** `str(block).upper().strip()`. */
  function Canon(block: string): string {
    Strip(Upper(block))
  }

  /** A source whose mapping file is missing has the empty mapping. */
  function MappingOf(loaded: map<string, Entries<seq<string>>>, source: string): Entries<seq<string>> {
    if source in loaded then loaded[source] else []
  }

  type Owners = map<string, set<string>>

  /** `block_sources[b].add(source)`, creating the set when `b` is new. */
  function AddOwner(owners: Owners, source: string, b: string): (r: Owners) {
    owners[b := (if b in owners then owners[b] else {}) + {source}]
  }

  /** The canonical forms of a category's blocks. */
  function CanonAll(blocks: seq<string>): (r: seq<string>)
    ensures |r| == |blocks|
  {
    if blocks == [] then [] else [Canon(blocks[0])] + CanonAll(blocks[1..])
  }

  lemma {:induction false} CanonAllAt(blocks: seq<string>, j: nat)
    requires j < |blocks|
    ensures CanonAll(blocks)[j] == Canon(blocks[j])
  {
    if j > 0 {
      CanonAllAt(blocks[1..], j - 1);
    }
  }

  /** The inner loop over one category's (canonical) blocks. */
  function AddKeys(owners: Owners, source: string, keys: seq<string>): Owners
    decreases |keys|
  {
    if keys == [] then owners
    else AddOwner(AddKeys(owners, source, keys[..|keys| - 1]), source, keys[|keys| - 1])
  }

  /** The loop over one source's categories. */
  function AddCategories(owners: Owners, source: string, mapping: Entries<seq<string>>): Owners
    decreases |mapping|
  {
    if mapping == [] then owners
    else AddKeys(AddCategories(owners, source, mapping[..|mapping| - 1]), source, CanonAll(mapping[|mapping| - 1].1))
  }

  /** The loop over the sources. */
  function AddSources(owners: Owners, sources: seq<string>, loaded: map<string, Entries<seq<string>>>): Owners
    decreases |sources|
  {
    if sources == [] then owners
    else
      var s := sources[|sources| - 1];
      AddCategories(AddSources(owners, sources[..|sources| - 1], loaded), s, MappingOf(loaded, s))
  }

  function BlockSources(loaded: map<string, Entries<seq<string>>>): Owners {
    AddSources(map[], MappedSources, loaded)
  }

  /** Some category of the mapping lists block `b` (after canonicalisation). */
  predicate MappingLists(mapping: Entries<seq<string>>, b: string) {
    exists c :: 0 <= c < |mapping| && b in CanonAll(mapping[c].1)
  }

  predicate Owns(owners: Owners, b: string, s: string) {
    b in owners && s in owners[b]
  }

  lemma {:induction false} AddKeysOwns(owners: Owners, source: string, keys: seq<string>, b: string, s: string)
    ensures Owns(AddKeys(owners, source, keys), b, s) <==> Owns(owners, b, s) || (s == source && b in keys)
    decreases |keys|
  {
    if keys != [] {
      var init := keys[..|keys| - 1];
      AddKeysOwns(owners, source, init, b, s);
      assert keys == init + [keys[|keys| - 1]];
    }
  }

  lemma {:induction false} AddCategoriesOwns(owners: Owners, source: string, mapping: Entries<seq<string>>, b: string, s: string)
    ensures Owns(AddCategories(owners, source, mapping), b, s)
      <==> Owns(owners, b, s) || (s == source && MappingLists(mapping, b))
    decreases |mapping|
  {
    if mapping != [] {
      var init := mapping[..|mapping| - 1];
      var last := mapping[|mapping| - 1];
      AddCategoriesOwns(owners, source, init, b, s);
      AddKeysOwns(AddCategories(owners, source, init), source, CanonAll(last.1), b, s);
      MappingListsLast(mapping, b);
    }
  }

  /** A block is listed by a mapping iff the earlier categories or the last one list it. */
  lemma MappingListsLast(mapping: Entries<seq<string>>, b: string)
    requires mapping != []
    ensures MappingLists(mapping, b)
      <==> MappingLists(mapping[..|mapping| - 1], b) || b in CanonAll(mapping[|mapping| - 1].1)
  {
    var init := mapping[..|mapping| - 1];
    if MappingLists(mapping, b) && b !in CanonAll(mapping[|mapping| - 1].1) {
      var c :| 0 <= c < |mapping| && b in CanonAll(mapping[c].1);
      assert init[c] == mapping[c];
    }
    if MappingLists(init, b) {
      var c :| 0 <= c < |init| && b in CanonAll(init[c].1);
      assert mapping[c] == init[c];
    }
  }

  lemma {:induction false} AddSourcesOwns(owners: Owners, sources: seq<string>, loaded: map<string, Entries<seq<string>>>,
                                           b: string, s: string)
    ensures Owns(AddSources(owners, sources, loaded), b, s)
      <==> Owns(owners, b, s) || (s in sources && MappingLists(MappingOf(loaded, s), b))
    decreases |sources|
  {
    if sources != [] {
      var init := sources[..|sources| - 1];
      AddSourcesOwns(owners, init, loaded, b, s);
      var last := sources[|sources| - 1];
      AddCategoriesOwns(AddSources(owners, init, loaded), last, MappingOf(loaded, last), b, s);
      assert sources == init + [last];
    }
  }

  /** Source `s` owns block `b` exactly when `b` appears (upper-cased, stripped)
      in some category of `s`'s mapping, `s` being one of the mapped sources. */
  lemma {:induction false} BlockSourcesMeaning(loaded: map<string, Entries<seq<string>>>, b: string, s: string)
    ensures Owns(BlockSources(loaded), b, s) <==> s in MappedSources && MappingLists(MappingOf(loaded, s), b)
  {
    AddSourcesOwns(map[], MappedSources, loaded, b, s);
  }

  /** One block of `source`: create the block's set if needed, then add the source. */
  method AddOwnerStep(owners: Owners, source: string, b: string) returns (r: Owners)
    ensures r == AddOwner(owners, source, b)
  {
    r := owners;
    if b !in r {
      r := r[b := {}];
    }
    r := r[b := r[b] + {source}];
  }

  /** The loop over one category's blocks. */
  method AddCategoryBlocks(owners: Owners, source: string, blocks: seq<string>) returns (r: Owners)
    ensures r == AddKeys(owners, source, CanonAll(blocks))
  {
    r := owners;
    ghost var keys := CanonAll(blocks);
    var j := 0;
    while j < |blocks|
      invariant 0 <= j <= |blocks|
      invariant r == AddKeys(owners, source, keys[..j])
    {
      var b := Canon(blocks[j]);
      CanonAllAt(blocks, j);
      assert b == keys[j];
      r := AddOwnerStep(r, source, b);
      assert keys[..j + 1][..j] == keys[..j] && keys[..j + 1][j] == b;
      j := j + 1;
    }
    assert keys[..j] == keys;
  }

  /** The loop over one source's categories. */
  method AddSourceBlocks(owners: Owners, source: string, mapping: Entries<seq<string>>) returns (r: Owners)
    ensures r == AddCategories(owners, source, mapping)
  {
    r := owners;
    var c := 0;
    while c < |mapping|
      invariant 0 <= c <= |mapping|
      invariant r == AddCategories(owners, source, mapping[..c])
    {
      r := AddCategoryBlocks(r, source, mapping[c].1);
      assert mapping[..c + 1][..c] == mapping[..c];
      c := c + 1;
    }
    assert mapping[..c] == mapping;
  }

  /** `get_block_sources_map`, with the loaded mappings as a parameter. */
  method GetBlockSourcesMap(loaded: map<string, Entries<seq<string>>>) returns (owners: Owners)
    ensures owners == BlockSources(loaded)
  {
    owners := map[];
    var i := 0;
    while i < |MappedSources|
      invariant 0 <= i <= |MappedSources|
      invariant owners == AddSources(map[], MappedSources[..i], loaded)
    {
      var source := MappedSources[i];
      owners := AddSourceBlocks(owners, source, MappingOf(loaded, source));
      assert MappedSources[..i + 1][..i] == MappedSources[..i];
      i := i + 1;
    }
    assert MappedSources[..i] == MappedSources;
  }

  // ---------------------------------------------------------------------------
  // sort_blocks_by_exclusivity

  /** Only `source` can use the block: its owner set is exactly `{source}`. */
  predicate IsExclusive(owners: Owners, source: string, block: string) {
    var s := if Canon(block) in owners then owners[Canon(block)] else {};
    |s| == 1 && source in s
  }

  /** `exclusivity_key`: exclusive blocks first, then by block number descending. */
  function ExclusivityKey(owners: Owners, source: string): string -> (int, int) {
    block => (if IsExclusive(owners, source, block) then 0 else 1, -(EmbeddedNumber(block) as int))
  }

  /** `sort_blocks_by_exclusivity`: a stable sort by `ExclusivityKey`. */
  function SortBlocksByExclusivity(blocks: seq<string>, source: string, owners: Owners): (r: seq<string>)
    ensures multiset(r) == multiset(blocks)
  {
    Sorting.SortByKey(blocks, ExclusivityKey(owners, source))
  }

  /** The result puts every exclusive block before every shared one, orders each
      class by block number from highest to lowest, and keeps the input order
      of blocks with the same key. */
  lemma {:induction false} SortBlocksFacts(blocks: seq<string>, source: string, owners: Owners)
    ensures var r := SortBlocksByExclusivity(blocks, source, owners);
      && (forall i, j :: 0 <= i < j < |r| && IsExclusive(owners, source, r[j]) ==> IsExclusive(owners, source, r[i]))
      && (forall i, j :: 0 <= i < j < |r| && IsExclusive(owners, source, r[i]) == IsExclusive(owners, source, r[j])
            ==> EmbeddedNumber(r[i]) >= EmbeddedNumber(r[j]))
      && (forall v :: Sorting.WithKey(r, ExclusivityKey(owners, source), v)
                      == Sorting.WithKey(blocks, ExclusivityKey(owners, source), v))
  {
    var key := ExclusivityKey(owners, source);
    var r := SortBlocksByExclusivity(blocks, source, owners);
    Sorting.SortIsSorted(blocks, key);
    forall v
      ensures Sorting.WithKey(r, key, v) == Sorting.WithKey(blocks, key, v)
    {
      Sorting.SortIsStable(blocks, key, v);
    }
    forall i, j | 0 <= i < j < |r|
      ensures IsExclusive(owners, source, r[j]) ==> IsExclusive(owners, source, r[i])
      ensures IsExclusive(owners, source, r[i]) == IsExclusive(owners, source, r[j])
              ==> EmbeddedNumber(r[i]) >= EmbeddedNumber(r[j])
    {
      assert Sorting.KeyLe(key(r[i]), key(r[j]));
    }
  }
}
