/** `allowed_blocks` of main.py: the blocks an order of a category may be
    served from, given the source's (loaded) mapping and the category
    hierarchy: an explicit block at the end of the category wins; otherwise the
    blocks of the first matching category come first, followed by the blocks of
    every better category that is not a short-side to lateral move, each block
    once. */
module BlockSelection {
  import opened Wrappers
  import opened Categories
  import opened BlockTables
  import opened Text

  /** The category matcher (`match_category`) and the upgrade filter
      (`is_lateral_upgrade_blocked` for the order's category) are passed to
      the loops below as values, so that what is proved about the loops holds
      for any matcher; `Allowed` passes the real ones. */
  type Matcher = (string, string) -> bool

  function BlockedFor(category: string): string -> bool {
    u => IsLateralUpgradeBlocked(category, u)
  }

  /** The first mapping entry at or after `from` whose key matches the category. */
  function FirstMatch(category: string, mapping: Entries<seq<string>>, matches: Matcher, from: nat): (r: Option<nat>)
    requires from <= |mapping|
    ensures r.Some? ==> from <= r.value < |mapping| && matches(category, mapping[r.value].0)
    ensures forall j :: from <= j < (if r.Some? then r.value else |mapping|) ==> !matches(category, mapping[j].0)
    decreases |mapping| - from
  {
    if from == |mapping| then None
    else if matches(category, mapping[from].0) then Some(from)
    else FirstMatch(category, mapping, matches, from + 1)
  }

  /** `exact_blocks`: the blocks of the first matching key, `None` when no key matches. */
  function ExactBlocks(category: string, mapping: Entries<seq<string>>, matches: Matcher): Option<seq<string>> {
    var f := FirstMatch(category, mapping, matches, 0);
    if f.Some? then Some(mapping[f.value].1) else None
  }

  /** Appending each block of `blocks` that `all` does not hold yet. */
  function AddNew(all: seq<string>, blocks: seq<string>): seq<string>
    decreases |blocks|
  {
    if blocks == [] then all
    else
      var acc := AddNew(all, blocks[..|blocks| - 1]);
      var b := blocks[|blocks| - 1];
      if b in acc then acc else acc + [b]
  }

  /** The blocks of every mapping key that matches the upgrade category. */
  function AddMatching(all: seq<string>, upgrade: string, mapping: Entries<seq<string>>, matches: Matcher): seq<string>
    decreases |mapping|
  {
    if mapping == [] then all
    else
      var acc := AddMatching(all, upgrade, mapping[..|mapping| - 1], matches);
      var e := mapping[|mapping| - 1];
      if matches(upgrade, e.0) then AddNew(acc, e.1) else acc
  }

  /** The loop over the upgrade categories, skipping the blocked ones. */
  function AddUpgrades(all: seq<string>, blocked: string -> bool, upgrades: seq<string>,
                       mapping: Entries<seq<string>>, matches: Matcher): seq<string>
    decreases |upgrades|
  {
    if upgrades == [] then all
    else
      var acc := AddUpgrades(all, blocked, upgrades[..|upgrades| - 1], mapping, matches);
      var u := upgrades[|upgrades| - 1];
      if blocked(u) then acc else AddMatching(acc, u, mapping, matches)
  }

  /** The upgrade categories of `get_upgrade_categories`. */
  function Upgrades(h: Hierarchy, category: string): seq<string> {
    BetterThan(h.priorityOrder, CategoryLevel(h, category))
  }

  /** `allowed_blocks(source, category, include_upgrades)` with the source's mapping loaded. */
  function Allowed(category: string, mapping: Entries<seq<string>>, h: Hierarchy, includeUpgrades: bool)
    : Option<seq<string>>
  {
    var specific := ExtractBlockFromCategory(category);
    if specific.Some? then Some([specific.value])
    else
      var exact := ExactBlocks(category, mapping, MatchCategory);
      if !includeUpgrades then exact
      else
        var all := AddUpgrades(if exact.Some? then exact.value else [], BlockedFor(category), Upgrades(h, category),
                               mapping, MatchCategory);
        if all == [] then None else Some(all)
  }

  // ---------------------------------------------------------------------------
  // What the folds keep

  /** From position `n` on, no element of `r` repeats an earlier one. */
  predicate FreshAfter(r: seq<string>, n: nat) {
    forall i, j :: 0 <= i < j < |r| && n <= j ==> r[i] != r[j]
  }

  /** Some key matching `upgrade` lists block `x`. */
  predicate MatchingLists(upgrade: string, mapping: Entries<seq<string>>, matches: Matcher, x: string) {
    exists c :: 0 <= c < |mapping| && matches(upgrade, mapping[c].0) && x in mapping[c].1
  }

  /** Some upgrade that is not blocked lists block `x`. */
  predicate UpgradeLists(blocked: string -> bool, upgrades: seq<string>, mapping: Entries<seq<string>>,
                         matches: Matcher, x: string) {
    exists i :: 0 <= i < |upgrades| && !blocked(upgrades[i]) && MatchingLists(upgrades[i], mapping, matches, x)
  }

  lemma {:induction false} AddNewFacts(all: seq<string>, blocks: seq<string>, n: nat)
    requires n <= |all| && FreshAfter(all, n)
    ensures var r := AddNew(all, blocks);
      |all| <= |r| && r[..|all|] == all && FreshAfter(r, n)
      && forall x :: x in r <==> x in all || x in blocks
    decreases |blocks|
  {
    if blocks != [] {
      var init := blocks[..|blocks| - 1];
      AddNewFacts(all, init, n);
      assert blocks == init + [blocks[|blocks| - 1]];
      var acc := AddNew(all, init);
      assert (acc + [blocks[|blocks| - 1]])[..|all|] == acc[..|all|];
    }
  }

  lemma {:induction false} AddMatchingFacts(all: seq<string>, upgrade: string, mapping: Entries<seq<string>>,
                                             matches: Matcher, n: nat)
    requires n <= |all| && FreshAfter(all, n)
    ensures var r := AddMatching(all, upgrade, mapping, matches);
      |all| <= |r| && r[..|all|] == all && FreshAfter(r, n)
      && forall x :: x in r <==> x in all || MatchingLists(upgrade, mapping, matches, x)
    decreases |mapping|
  {
    if mapping != [] {
      var init := mapping[..|mapping| - 1];
      var e := mapping[|mapping| - 1];
      AddMatchingFacts(all, upgrade, init, matches, n);
      var acc := AddMatching(all, upgrade, init, matches);
      if matches(upgrade, e.0) {
        AddNewFacts(acc, e.1, n);
      }
      forall x
        ensures MatchingLists(upgrade, mapping, matches, x)
          <==> MatchingLists(upgrade, init, matches, x) || (matches(upgrade, e.0) && x in e.1)
      {
        if MatchingLists(upgrade, mapping, matches, x) {
          var c :| 0 <= c < |mapping| && matches(upgrade, mapping[c].0) && x in mapping[c].1;
          if c < |init| {
            assert init[c] == mapping[c];
          }
        }
        if MatchingLists(upgrade, init, matches, x) {
          var c :| 0 <= c < |init| && matches(upgrade, init[c].0) && x in init[c].1;
          assert mapping[c] == init[c];
        }
      }
    }
  }

  lemma {:induction false} AddUpgradesFacts(all: seq<string>, blocked: string -> bool, upgrades: seq<string>,
                                             mapping: Entries<seq<string>>, matches: Matcher, n: nat)
    requires n <= |all| && FreshAfter(all, n)
    ensures var r := AddUpgrades(all, blocked, upgrades, mapping, matches);
      |all| <= |r| && r[..|all|] == all && FreshAfter(r, n)
      && forall x :: x in r <==> x in all || UpgradeLists(blocked, upgrades, mapping, matches, x)
    decreases |upgrades|
  {
    if upgrades != [] {
      var init := upgrades[..|upgrades| - 1];
      var u := upgrades[|upgrades| - 1];
      AddUpgradesFacts(all, blocked, init, mapping, matches, n);
      var acc := AddUpgrades(all, blocked, init, mapping, matches);
      if !blocked(u) {
        AddMatchingFacts(acc, u, mapping, matches, n);
      }
      forall x
        ensures UpgradeLists(blocked, upgrades, mapping, matches, x)
          <==> UpgradeLists(blocked, init, mapping, matches, x) || (!blocked(u) && MatchingLists(u, mapping, matches, x))
      {
        if UpgradeLists(blocked, upgrades, mapping, matches, x) {
          var i :| 0 <= i < |upgrades| && !blocked(upgrades[i]) && MatchingLists(upgrades[i], mapping, matches, x);
          if i < |init| {
            assert init[i] == upgrades[i];
          }
        }
        if UpgradeLists(blocked, init, mapping, matches, x) {
          var i :| 0 <= i < |init| && !blocked(init[i]) && MatchingLists(init[i], mapping, matches, x);
          assert upgrades[i] == init[i];
        }
      }
    }
  }

  /** The exact category's blocks as `allowed_blocks` starts from them (`[]` when none). */
  function ExactOrEmpty(category: string, mapping: Entries<seq<string>>): seq<string> {
    var exact := ExactBlocks(category, mapping, MatchCategory);
    if exact.Some? then exact.value else []
  }

  /** The list `allowed_blocks` returns with upgrades on, `[]` for `None`. */
  function AllowedList(category: string, mapping: Entries<seq<string>>, h: Hierarchy): seq<string> {
    var r := Allowed(category, mapping, h, true);
    if r.Some? then r.value else []
  }

  /** What `allowed_blocks` promises with upgrades on: an explicit block alone;
      otherwise the exact category's blocks first, then only blocks not seen
      before, each listed by a matching key of an upgrade category that is not
      a short-side to lateral move, and `None` rather than an empty list. */
  lemma {:induction false} AllowedFacts(category: string, mapping: Entries<seq<string>>, h: Hierarchy)
    ensures ExtractBlockFromCategory(category).Some? ==>
              Allowed(category, mapping, h, true) == Some([ExtractBlockFromCategory(category).value])
    ensures Allowed(category, mapping, h, true).Some? ==> Allowed(category, mapping, h, true).value != []
    ensures ExtractBlockFromCategory(category).None? ==>
              && |ExactOrEmpty(category, mapping)| <= |AllowedList(category, mapping, h)|
              && AllowedList(category, mapping, h)[..|ExactOrEmpty(category, mapping)|] == ExactOrEmpty(category, mapping)
              && FreshAfter(AllowedList(category, mapping, h), |ExactOrEmpty(category, mapping)|)
    ensures ExtractBlockFromCategory(category).None? ==>
              forall x :: x in AllowedList(category, mapping, h) <==>
                (x in ExactOrEmpty(category, mapping)
                 || UpgradeLists(BlockedFor(category), Upgrades(h, category), mapping, MatchCategory, x))
  {
    AddUpgradesFacts(ExactOrEmpty(category, mapping), BlockedFor(category), Upgrades(h, category), mapping,
                     MatchCategory, |ExactOrEmpty(category, mapping)|);
  }

  /** For a short-side order, a block beyond the exact category's comes from an
      upgrade category whose name does not contain "LATERAL". */
  lemma {:induction false} ShortsideGetsNoLateral(category: string, mapping: Entries<seq<string>>, h: Hierarchy, x: string)
    requires ExtractBlockFromCategory(category).None? && IsShortside(category)
    requires x in AllowedList(category, mapping, h) && x !in ExactOrEmpty(category, mapping)
    ensures exists i :: 0 <= i < |Upgrades(h, category)| && !Contains(Upper(Upgrades(h, category)[i]), "LATERAL")
              && MatchingLists(Upgrades(h, category)[i], mapping, MatchCategory, x)
  {
    AllowedFacts(category, mapping, h);
    var ups := Upgrades(h, category);
    var i :| 0 <= i < |ups| && !BlockedFor(category)(ups[i]) && MatchingLists(ups[i], mapping, MatchCategory, x);
    assert !IsLateralUpgradeBlocked(category, ups[i]);
  }

  /** Without upgrades the result is the blocks of the first key matching the
      category (`None` when no key matches), unless the category names its block. */
  lemma AllowedWithoutUpgrades(category: string, mapping: Entries<seq<string>>, h: Hierarchy)
    requires ExtractBlockFromCategory(category).None?
    ensures var r := Allowed(category, mapping, h, false);
      && (r.Some? <==> exists c :: 0 <= c < |mapping| && MatchCategory(category, mapping[c].0))
      && (r.Some? ==> exists c :: 0 <= c < |mapping| && MatchCategory(category, mapping[c].0)
                                 && r.value == mapping[c].1
                                 && forall j :: 0 <= j < c ==> !MatchCategory(category, mapping[j].0))
  {
    var f := FirstMatch(category, mapping, MatchCategory, 0);
    if f.Some? {
      assert MatchCategory(category, mapping[f.value].0);
    }
  }

  // ---------------------------------------------------------------------------
  // The imperative allowed_blocks

  /** `for b in blocks: if b not in all_blocks: all_blocks.append(b)`. */
  method AddNewBlocks(all: seq<string>, blocks: seq<string>) returns (r: seq<string>)
    ensures r == AddNew(all, blocks)
  {
    r := all;
    var j := 0;
    while j < |blocks|
      invariant 0 <= j <= |blocks|
      invariant r == AddNew(all, blocks[..j])
    {
      assert blocks[..j + 1][..j] == blocks[..j];
      if blocks[j] !in r {
        r := r + [blocks[j]];
      }
      j := j + 1;
    }
    assert blocks[..j] == blocks;
  }

  /** The loop over the mapping for one upgrade category. */
  method AddMatchingBlocks(all: seq<string>, upgrade: string, mapping: Entries<seq<string>>, matches: Matcher)
    returns (r: seq<string>)
    ensures r == AddMatching(all, upgrade, mapping, matches)
  {
    r := all;
    var c := 0;
    while c < |mapping|
      invariant 0 <= c <= |mapping|
      invariant r == AddMatching(all, upgrade, mapping[..c], matches)
    {
      assert mapping[..c + 1][..c] == mapping[..c];
      if matches(upgrade, mapping[c].0) {
        r := AddNewBlocks(r, mapping[c].1);
      }
      c := c + 1;
    }
    assert mapping[..c] == mapping;
  }

  /** The first key matching the category, by a loop that stops at it. */
  method FindExact(category: string, mapping: Entries<seq<string>>, matches: Matcher)
    returns (exact: Option<seq<string>>)
    ensures exact == ExactBlocks(category, mapping, matches)
  {
    var c := 0;
    while c < |mapping|
      invariant 0 <= c <= |mapping|
      invariant FirstMatch(category, mapping, matches, 0) == FirstMatch(category, mapping, matches, c)
    {
      if matches(category, mapping[c].0) {
        return Some(mapping[c].1);
      }
      c := c + 1;
    }
    return None;
  }

  /** The upgrade loop of `allowed_blocks`. */
  method AddUpgradeBlocks(all: seq<string>, blocked: string -> bool, upgrades: seq<string>,
                          mapping: Entries<seq<string>>, matches: Matcher) returns (r: seq<string>)
    ensures r == AddUpgrades(all, blocked, upgrades, mapping, matches)
  {
    r := all;
    var i := 0;
    while i < |upgrades|
      invariant 0 <= i <= |upgrades|
      invariant r == AddUpgrades(all, blocked, upgrades[..i], mapping, matches)
    {
      assert upgrades[..i + 1][..i] == upgrades[..i];
      if !blocked(upgrades[i]) {
        r := AddMatchingBlocks(r, upgrades[i], mapping, matches);
      }
      i := i + 1;
    }
    assert upgrades[..i] == upgrades;
  }

  /** `allowed_blocks`, with the source's mapping and the hierarchy as parameters. */
  method AllowedBlocks(category: string, mapping: Entries<seq<string>>, h: Hierarchy, includeUpgrades: bool)
    returns (r: Option<seq<string>>)
    ensures r == Allowed(category, mapping, h, includeUpgrades)
  {
    var specific := ExtractBlockFromCategory(category);
    if specific.Some? {
      return Some([specific.value]);
    }
    var exact := FindExact(category, mapping, MatchCategory);
    if !includeUpgrades {
      return exact;
    }
    var upgrades := GetUpgradeCategories(h, category);
    var all := AddUpgradeBlocks(if exact.Some? then exact.value else [], BlockedFor(category), upgrades,
                                mapping, MatchCategory);
    r := if all == [] then None else Some(all);
  }
}
