/** The category and source helpers of main.py: source-name normalisation,
    the explicit block at the end of a category, fuzzy category matching, the
    category hierarchy (levels, upgrades, the short-side rule). The hierarchy
    file is a parameter instead of a cached global. */
module Categories {
  import opened Wrappers
  import opened Text
  import AllocatorHelpers

  // ---------------------------------------------------------------------------
  // normalize_source

  const KnownSources: set<string> :=
    {"livefootballtickets", "footballticketnet", "sportsevents365", "tixstock", "goldenseat"}

  /** `normalize_source`: the first known fragment contained in the lower-cased,
      stripped name picks the canonical name; anything else stays as it is
      after lower-casing and stripping. */
  function NormalizeSource(src: string): (r: string)
    ensures r in KnownSources || r == Lower(Strip(src))
  {
    var s := Lower(Strip(src));
    if Contains(s, "livefootball") then "livefootballtickets"
    else if Contains(s, "footballticketnet") then "footballticketnet"
    else if Contains(s, "sportsevents") then "sportsevents365"
    else if Contains(s, "tixstock") then "tixstock"
    else if Contains(s, "golden") then "goldenseat"
    else s
  }

  /** `needle` cannot occur in `s` when its first character occurs nowhere it could start. */
  lemma NotContained(s: string, needle: string)
    requires needle != []
    requires forall k :: 0 <= k <= |s| - |needle| ==> s[k] != needle[0]
    ensures !Contains(s, needle)
  {
    forall k: nat | k <= |s| - |needle|
      ensures !StartsWithAt(s, k, needle)
    {
      assert s[k..k + |needle|][0] == s[k];
    }
  }

  /** A lower-case name without edge whitespace is its own `strip().lower()`. */
  lemma LowerStripFixed(s: string)
    requires NoEdgeSpace(s)
    requires forall i :: 0 <= i < |s| ==> !('A' <= s[i] <= 'Z')
    ensures Lower(Strip(s)) == s
  {
    StripOfStripped(s);
  }

  /** Every canonical name normalises to itself. */
  lemma {:induction false} KnownSourcesFixed(name: string)
    requires name in KnownSources
    ensures NormalizeSource(name) == name
  {
    if name == "livefootballtickets" {
      LiveFootballFixed();
    } else if name == "footballticketnet" {
      FootballTicketNetFixed();
    } else if name == "sportsevents365" {
      SportsEventsFixed();
    } else if name == "tixstock" {
      TixstockFixed();
    } else {
      GoldenSeatFixed();
    }
  }

  lemma LiveFootballFixed()
    ensures NormalizeSource("livefootballtickets") == "livefootballtickets"
  {
    LowerStripFixed("livefootballtickets");
    assert StartsWithAt("livefootballtickets", 0, "livefootball");
  }

  lemma FootballTicketNetFixed()
    ensures NormalizeSource("footballticketnet") == "footballticketnet"
  {
    var name := "footballticketnet";
    LowerStripFixed(name);
    NotContained(name, "livefootball");
    assert StartsWithAt(name, 0, "footballticketnet");
  }

  lemma SportsEventsFixed()
    ensures NormalizeSource("sportsevents365") == "sportsevents365"
  {
    var name := "sportsevents365";
    LowerStripFixed(name);
    NotContained(name, "livefootball");
    NotContained(name, "footballticketnet");
    assert StartsWithAt(name, 0, "sportsevents");
  }

  lemma TixstockFixed()
    ensures NormalizeSource("tixstock") == "tixstock"
  {
    LowerStripFixed("tixstock");
    assert StartsWithAt("tixstock", 0, "tixstock");
  }

  lemma GoldenSeatFixed()
    ensures NormalizeSource("goldenseat") == "goldenseat"
  {
    var name := "goldenseat";
    LowerStripFixed(name);
    NotContained(name, "tixstock");
    assert StartsWithAt(name, 0, "golden");
  }

  /** `normalize_source` is idempotent. */
  lemma {:induction false} NormalizeSourceIdempotent(src: string)
    ensures NormalizeSource(NormalizeSource(src)) == NormalizeSource(src)
  {
    var r := NormalizeSource(src);
    if r in KnownSources {
      KnownSourcesFixed(r);
    } else {
      StripFacts(src);
      LowerKeepsEdges(Strip(src));
      StripOfStripped(r);
    }
  }

  // ---------------------------------------------------------------------------
  // extract_block_from_category

  predicate ThreeDigits(d: string) {
    |d| == 3 && IsDigit(d[0]) && IsDigit(d[1]) && IsDigit(d[2])
  }

  /** `re.search(r'\b(\d{3})\s*$', category.strip())`: the stripped category
      ends in three digits with a word boundary in front of them. */
  function ExtractBlockFromCategory(category: string): (r: Option<string>)
    ensures r.Some? ==> ThreeDigits(r.value)
    ensures r.Some? ==> (var s := Strip(category);
      |s| >= 3 && s[|s| - 3..] == r.value && (|s| == 3 || !IsWordChar(s[|s| - 4])))
  {
    var s := Strip(category);
    if |s| >= 3 && ThreeDigits(s[|s| - 3..]) && (|s| == 3 || !IsWordChar(s[|s| - 4]))
    then Some(s[|s| - 3..])
    else None
  }

  /** A category name followed by a space and a block number yields that block. */
  lemma {:induction false} BlockAfterName(name: string, d: string)
    requires ThreeDigits(d)
    requires name != [] && !IsSpace(name[0])
    ensures ExtractBlockFromCategory(name + " " + d) == Some(d)
  {
    var s := name + " " + d;
    assert s[0] == name[0] && s[|s| - 1] == d[2];
    StripOfStripped(s);
    assert s[|s| - 3..] == d;
    assert s[|s| - 4] == ' ';
  }

  /** Three digits glued to a word character are not a block number. */
  lemma {:induction false} BlockNeedsBoundary(name: string, d: string)
    requires ThreeDigits(d)
    requires name != [] && !IsSpace(name[0]) && IsWordChar(name[|name| - 1])
    ensures ExtractBlockFromCategory(name + d) == None
  {
    var s := name + d;
    assert s[0] == name[0] && s[|s| - 1] == d[2];
    StripOfStripped(s);
    assert s[|s| - 4] == name[|name| - 1];
  }

  // ---------------------------------------------------------------------------
  // normalize_category and match_category

  /** `re.sub(r'categor[íi]a', 'category', s)`, left to right. */
  function ReplaceCategoria(s: string): (r: string)
    ensures |r| <= |s|
  {
    if |s| >= 9 && s[..7] == "categor" && (s[7] == 'i' || s[7] == 'í') && s[8] == 'a' then
      "category" + ReplaceCategoria(s[9..])
    else if s == [] then []
    else [s[0]] + ReplaceCategoria(s[1..])
  }

  /** The end of a match of `\s*-\s*fondo\s*\d*` starting at the front of `s`. */
  function FondoEnd(s: string): (r: Option<nat>)
    ensures r.Some? ==> 6 <= r.value <= |s|
  {
    var a := SkipSpaces(s, 0);
    if a < |s| && s[a] == '-' then
      var b := SkipSpaces(s, a + 1);
      if StartsWithAt(s, b, "fondo") then Some(SkipDigits(s, SkipSpaces(s, b + 5))) else None
    else None
  }

  /** `re.sub(r'\s*-\s*fondo\s*\d*', '', s)`: every match, leftmost first, is dropped. */
  function RemoveFondo(s: string): (r: string)
    ensures |r| <= |s|
    decreases |s|
  {
    if s == [] then []
    else match FondoEnd(s)
      case Some(e) => RemoveFondo(s[e..])
      case None => [s[0]] + RemoveFondo(s[1..])
  }

  /** `normalize_category`: lower-case and strip, drop parenthesised parts,
      spell "categoría"/"categoria" as "category", collapse whitespace, drop
      "- fondo N". */
  function NormalizeCategory(category: string): (r: string)
    ensures |r| <= |category|
  {
    var s1 := Strip(Lower(category));
    var s2 := AllocatorHelpers.RemoveParens(s1);
    var s3 := ReplaceCategoria(s2);
    var s4 := Strip(CollapseSpaces(s3));
    RemoveFondo(s4)
  }

  /** The `cat_mappings` table of `match_category`: a full name and its short forms. */
  const ShortForms: seq<(string, seq<string>)> := [
    ("category 1", ["cat1", "cat 1"]),
    ("category 2", ["cat2", "cat 2"]),
    ("category 3", ["cat3", "cat 3"]),
    ("category 4", ["cat4", "cat 4"]),
    ("category 1 premium", ["cat1 premium", "cat 1 premium"]),
    ("category 2 lateral", ["cat2 lateral", "cat 2 lateral"])
  ]

  predicate NamesEntry(entry: (string, seq<string>), s: string) {
    s == entry.0 || s in entry.1
  }

  /** Both normalised names denote the same `cat_mappings` entry. */
  predicate SameShortForm(c: string, k: string) {
    exists i :: 0 <= i < |ShortForms| && NamesEntry(ShortForms[i], c) && NamesEntry(ShortForms[i], k)
  }

  /** `match_category` on the normalised names: equal, one inside the other, or
      two spellings of one `cat_mappings` entry. */
  predicate MatchNormalized(c: string, k: string) {
    c == k || Contains(k, c) || Contains(c, k) || SameShortForm(c, k)
  }

  function MatchCategory(category: string, mappingKey: string): (r: bool)
    ensures r <==> MatchNormalized(NormalizeCategory(category), NormalizeCategory(mappingKey))
  {
    var c := NormalizeCategory(category);
    var k := NormalizeCategory(mappingKey);
    if c == k then true
    else if Contains(c, k) || Contains(k, c) then true
    else SameShortForm(c, k)
  }

  /** Every category matches itself. */
  lemma MatchReflexive(c: string)
    ensures MatchCategory(c, c)
  {
  }

  /** Matching does not depend on which name is the category and which the key. */
  lemma MatchSymmetric(c: string, k: string)
    ensures MatchCategory(c, k) == MatchCategory(k, c)
  {
  }

  lemma LowerOfUpper(s: string)
    ensures Lower(Upper(s)) == Lower(s)
  {
    assert forall i :: 0 <= i < |s| ==> Lower(Upper(s))[i] == LowerChar(UpperChar(s[i]));
  }

  /** The case of the category does not matter: it is lower-cased first. */
  lemma {:induction false} NormalizeIgnoresCase(c: string)
    ensures NormalizeCategory(Upper(c)) == NormalizeCategory(c)
  {
    LowerOfUpper(c);
  }

  lemma {:induction false} MatchIgnoresCase(c: string, k: string)
    ensures MatchCategory(Upper(c), Upper(k)) == MatchCategory(c, k)
  {
    NormalizeIgnoresCase(c);
    NormalizeIgnoresCase(k);
  }

  // ---------------------------------------------------------------------------
  // The category hierarchy

  datatype LevelItem = LevelItem(name: string, level: int)

  /** The hierarchy file: `priority_order` (name and level, 1 = best) and the
      `category_aliases` dictionary (alias to canonical name, in file order). */
  datatype Hierarchy = Hierarchy(priorityOrder: seq<LevelItem>, aliases: seq<(string, string)>)

  const UnknownLevel: int := 99

  /** The first item of `items[from..]` whose upper-cased name is `u`. */
  function FindLevel(items: seq<LevelItem>, u: string, from: nat): (r: Option<nat>)
    requires from <= |items|
    ensures r.Some? ==> from <= r.value < |items| && Upper(items[r.value].name) == u
    ensures r.Some? ==> forall j :: from <= j < r.value ==> Upper(items[j].name) != u
    ensures r.None? ==> forall j :: from <= j < |items| ==> Upper(items[j].name) != u
    decreases |items| - from
  {
    if from == |items| then None
    else if Upper(items[from].name) == u then Some(from)
    else FindLevel(items, u, from + 1)
  }

  predicate AliasApplies(alias: string, category: string) {
    Strip(Upper(category)) == Upper(alias) || Strip(category) == alias
  }

  /** The alias loop of `get_category_level`, from alias `j` on: an alias that
      names the category and whose canonical name is listed gives that level;
      an alias whose canonical name is not listed is passed over. */
  function AliasLevel(h: Hierarchy, category: string, j: nat): (r: int)
    requires j <= |h.aliases|
    ensures r == UnknownLevel || exists i :: 0 <= i < |h.priorityOrder| && r == h.priorityOrder[i].level
    decreases |h.aliases| - j
  {
    if j == |h.aliases| then UnknownLevel
    else
      var found := FindLevel(h.priorityOrder, Upper(h.aliases[j].1), 0);
      if AliasApplies(h.aliases[j].0, category) && found.Some? then h.priorityOrder[found.value].level
      else AliasLevel(h, category, j + 1)
  }

  /** `get_category_level`: the level of the first item named like the category,
      else of the first applicable alias's canonical name, else 99. */
  function CategoryLevel(h: Hierarchy, category: string): (r: int)
    ensures r == UnknownLevel || exists i :: 0 <= i < |h.priorityOrder| && r == h.priorityOrder[i].level
  {
    match FindLevel(h.priorityOrder, Strip(Upper(category)), 0)
    case Some(i) => h.priorityOrder[i].level
    case None => AliasLevel(h, category, 0)
  }

  /** A category spelled like a listed name has that name's level (the first one listed). */
  lemma {:induction false} LevelOfListedName(h: Hierarchy, category: string, i: nat)
    requires i < |h.priorityOrder| && Upper(h.priorityOrder[i].name) == Strip(Upper(category))
    requires forall j :: 0 <= j < i ==> Upper(h.priorityOrder[j].name) != Strip(Upper(category))
    ensures CategoryLevel(h, category) == h.priorityOrder[i].level
  {
    var f := FindLevel(h.priorityOrder, Strip(Upper(category)), 0);
    assert f.Some? && f.value == i;
  }

  /** Some item of the hierarchy is named `u` once upper-cased. */
  predicate HasItemNamed(items: seq<LevelItem>, u: string) {
    exists k :: 0 <= k < |items| && Upper(items[k].name) == u
  }

  /** Alias `j` names the category and its canonical name is listed. */
  predicate AliasHits(h: Hierarchy, category: string, j: nat)
    requires j < |h.aliases|
  {
    AliasApplies(h.aliases[j].0, category) && HasItemNamed(h.priorityOrder, Upper(h.aliases[j].1))
  }

  /** The alias loop from `from` on, when alias `j` is the first hit from there:
      the level of the first item listed under alias `j`'s canonical name. */
  lemma {:induction false} AliasLevelAt(h: Hierarchy, category: string, from: nat, j: nat, i: nat)
    requires from <= j < |h.aliases| && AliasHits(h, category, j)
    requires forall j' :: from <= j' < j ==> !AliasHits(h, category, j')
    requires i < |h.priorityOrder| && Upper(h.priorityOrder[i].name) == Upper(h.aliases[j].1)
    requires forall k :: 0 <= k < i ==> Upper(h.priorityOrder[k].name) != Upper(h.aliases[j].1)
    ensures AliasLevel(h, category, from) == h.priorityOrder[i].level
    decreases j - from
  {
    var found := FindLevel(h.priorityOrder, Upper(h.aliases[from].1), 0);
    if from == j {
      assert found.Some? && found.value == i;
    } else {
      assert !AliasHits(h, category, from);
      if found.Some? {
        assert HasItemNamed(h.priorityOrder, Upper(h.aliases[from].1));
      }
      AliasLevelAt(h, category, from + 1, j, i);
    }
  }

  /** Without any hit from `from` on, the alias loop falls through to 99. */
  lemma {:induction false} AliasLevelMiss(h: Hierarchy, category: string, from: nat)
    requires from <= |h.aliases|
    requires forall j :: from <= j < |h.aliases| ==> !AliasHits(h, category, j)
    ensures AliasLevel(h, category, from) == UnknownLevel
    decreases |h.aliases| - from
  {
    if from < |h.aliases| {
      var found := FindLevel(h.priorityOrder, Upper(h.aliases[from].1), 0);
      assert !AliasHits(h, category, from);
      if found.Some? {
        assert HasItemNamed(h.priorityOrder, Upper(h.aliases[from].1));
      }
      AliasLevelMiss(h, category, from + 1);
    }
  }

  /** A category named by no item takes its level from the first alias that
      names it and whose canonical name is listed: the level of the first item
      listed under that canonical name. */
  lemma LevelOfAlias(h: Hierarchy, category: string, j: nat, i: nat)
    requires !HasItemNamed(h.priorityOrder, Strip(Upper(category)))
    requires j < |h.aliases| && AliasHits(h, category, j)
    requires forall j' :: 0 <= j' < j ==> !AliasHits(h, category, j')
    requires i < |h.priorityOrder| && Upper(h.priorityOrder[i].name) == Upper(h.aliases[j].1)
    requires forall k :: 0 <= k < i ==> Upper(h.priorityOrder[k].name) != Upper(h.aliases[j].1)
    ensures CategoryLevel(h, category) == h.priorityOrder[i].level
  {
    AliasLevelAt(h, category, 0, j, i);
  }

  /** A category named by no item and by no alias with a listed canonical name has level 99. */
  lemma LevelUnknown(h: Hierarchy, category: string)
    requires !HasItemNamed(h.priorityOrder, Strip(Upper(category)))
    requires forall j :: 0 <= j < |h.aliases| ==> !AliasHits(h, category, j)
    ensures CategoryLevel(h, category) == UnknownLevel
  {
    AliasLevelMiss(h, category, 0);
  }

  /** The names of `items` whose level is below `current`, in hierarchy order. */
  function BetterThan(items: seq<LevelItem>, current: int): (r: seq<string>)
    ensures |r| <= |items|
  {
    if items == [] then []
    else (if items[0].level < current then [items[0].name] else []) + BetterThan(items[1..], current)
  }

  /** Membership in `BetterThan`, both ways. */
  lemma {:induction false} BetterThanMembers(items: seq<LevelItem>, current: int, name: string)
    ensures name in BetterThan(items, current)
      <==> exists i :: 0 <= i < |items| && items[i].name == name && items[i].level < current
  {
    if items != [] {
      BetterThanMembers(items[1..], current, name);
      var rest := BetterThan(items[1..], current);
      assert BetterThan(items, current) ==
        (if items[0].level < current then [items[0].name] else []) + rest;
      if exists i :: 0 <= i < |items| && items[i].name == name && items[i].level < current {
        var i :| 0 <= i < |items| && items[i].name == name && items[i].level < current;
        if i > 0 {
          assert items[1..][i - 1] == items[i];
        }
      }
      if name in rest {
        var i :| 0 <= i < |items| - 1 && items[1..][i].name == name && items[1..][i].level < current;
        assert items[i + 1] == items[1..][i];
      }
    }
  }

  lemma BetterThanStep(items: seq<LevelItem>, i: nat, current: int)
    requires i < |items|
    ensures BetterThan(items[i..], current)
      == (if items[i].level < current then [items[i].name] else []) + BetterThan(items[i + 1..], current)
  {
    assert items[i..][1..] == items[i + 1..];
  }

  /** `get_upgrade_categories`: every listed name whose level is below the category's. */
  method GetUpgradeCategories(h: Hierarchy, category: string) returns (upgrades: seq<string>)
    ensures upgrades == BetterThan(h.priorityOrder, CategoryLevel(h, category))
  {
    var current := CategoryLevel(h, category);
    upgrades := NamesBelow(h.priorityOrder, current);
  }

  /** The loop of `get_upgrade_categories` over the hierarchy items. */
  method NamesBelow(items: seq<LevelItem>, current: int) returns (upgrades: seq<string>)
    ensures upgrades == BetterThan(items, current)
  {
    upgrades := [];
    var i := 0;
    while i < |items|
      invariant 0 <= i <= |items|
      invariant upgrades + BetterThan(items[i..], current) == BetterThan(items, current)
    {
      BetterThanStep(items, i, current);
      if items[i].level < current {
        upgrades := upgrades + [items[i].name];
      }
      i := i + 1;
    }
    assert items[i..] == [];
  }

  /** An upgrade is a strictly better category, and every strictly better one is offered. */
  lemma {:induction false} UpgradesAreBetter(h: Hierarchy, category: string, name: string)
    ensures name in BetterThan(h.priorityOrder, CategoryLevel(h, category))
      <==> exists i :: 0 <= i < |h.priorityOrder| && h.priorityOrder[i].name == name
             && h.priorityOrder[i].level < CategoryLevel(h, category)
  {
    BetterThanMembers(h.priorityOrder, CategoryLevel(h, category), name);
  }

  /** A category the hierarchy does not know has level 99, so every listed name
      of a lower level is an upgrade. */
  lemma {:induction false} UnknownCategoryUpgrades(h: Hierarchy, category: string, i: nat)
    requires CategoryLevel(h, category) == UnknownLevel
    requires i < |h.priorityOrder| && h.priorityOrder[i].level < UnknownLevel
    ensures h.priorityOrder[i].name in BetterThan(h.priorityOrder, CategoryLevel(h, category))
  {
    BetterThanMembers(h.priorityOrder, UnknownLevel, h.priorityOrder[i].name);
  }

  // ---------------------------------------------------------------------------
  // is_shortside_category and is_lateral_upgrade_blocked

  const ShortsideKeywords: seq<string> :=
    ["SHORT SIDE", "CATEGORY 3", "CATEGORY 4", "CAT 3", "CAT 4", "FONDO", "CATEGORÍA 3", "CATEGORÍA 4"]

  /** `is_shortside_category`: the upper-cased, stripped category contains a short-side keyword. */
  predicate IsShortside(category: string) {
    exists i :: 0 <= i < |ShortsideKeywords| && Contains(Strip(Upper(category)), ShortsideKeywords[i])
  }

  /** `is_lateral_upgrade_blocked`: a short-side order may not move up to a lateral category. */
  predicate IsLateralUpgradeBlocked(originalCategory: string, upgradeCategory: string) {
    IsShortside(originalCategory) && Contains(Upper(upgradeCategory), "LATERAL")
  }

  lemma UpperOfLower(s: string)
    ensures Upper(Lower(s)) == Upper(s)
  {
    assert forall i :: 0 <= i < |s| ==> Upper(Lower(s))[i] == UpperChar(LowerChar(s[i]));
  }

  /** The short-side and lateral tests do not depend on the case of either name. */
  lemma {:induction false} LateralRuleIgnoresCase(original: string, upgrade: string)
    ensures IsShortside(Lower(original)) == IsShortside(original)
    ensures IsLateralUpgradeBlocked(Lower(original), Lower(upgrade))
      == IsLateralUpgradeBlocked(original, upgrade)
  {
    UpperOfLower(original);
    UpperOfLower(upgrade);
  }

  /** "Fondo" (behind the goal) names a short-side category, so its lateral upgrades are blocked. */
  lemma {:induction false} FondoBlocksLateral(original: string, upgrade: string)
    requires Contains(Strip(Upper(original)), "FONDO")
    requires Contains(Upper(upgrade), "LATERAL")
    ensures IsLateralUpgradeBlocked(original, upgrade)
  {
    assert ShortsideKeywords[5] == "FONDO";
  }
}
