/** The helpers of engine/allocator.py: `norm`, the TixStock block-code table
    and its translation, the specific-block test, team extraction and event
    matching, and the `parse_up_to` reading of a seating arrangement. */
module AllocatorHelpers {
  import opened Wrappers
  import opened Text

  /** The TixStock side of `TIXSTOCK_BLOCK_MAP` (lines 12-19): blocks 1-6, 15 and 17-24. */
  const TixstockCodes: set<string> :=
    {"1", "2", "3", "4", "5", "6", "15", "17", "18", "19", "20", "21", "22", "23", "24"}

  /** The other side of a table entry: a one- or two-digit TixStock code gets the
      venue's hundred (1 -> 101, 15 -> 115), a venue block "1xx" loses it. */
  function Counterpart(k: string): string {
    if |k| == 3 then (if k[1] == '0' then k[2..] else k[1..])
    else if |k| == 1 then "10" + k
    else "1" + k
  }

  /** `TIXSTOCK_BLOCK_MAP`: its thirty entries are each TixStock code with its
      venue block and each venue block with its TixStock code. */
  const TixstockMap: map<string, string> :=
    map k | k in TixstockCodes + (set c | c in TixstockCodes :: Counterpart(c)) :: Counterpart(k)

  predicate AllDigits(s: string) {
    forall i :: 0 <= i < |s| ==> IsDigit(s[i])
  }

  /** What the involution needs of a TixStock code. */
  predicate ShortCode(k: string) {
    (|k| == 1 || (|k| == 2 && k[0] != '0')) && AllDigits(k)
  }

  lemma CodesAreShort()
    ensures forall k :: k in TixstockCodes ==> ShortCode(k)
  {
  }

  lemma CounterpartOfShort(k: string)
    requires ShortCode(k)
    ensures var c := Counterpart(k);
      |c| == 3 && c[0] == '1' && AllDigits(c) && Counterpart(c) == k && c != k
  {
    var c := Counterpart(k);
    if |k| == 1 {
      assert c[2..] == k;
    } else {
      assert c[1..] == k;
    }
  }

  /** The table is its own inverse, and every code in it is a nonempty digit string. */
  lemma {:induction false} TixstockInvolution()
    ensures forall k :: k in TixstockMap ==> TixstockMap[k] in TixstockMap && TixstockMap[TixstockMap[k]] == k
    ensures forall k :: k in TixstockMap ==> k != TixstockMap[k] && AllDigits(k) && k != []
  {
    CodesAreShort();
    forall k | k in TixstockMap
      ensures TixstockMap[k] in TixstockMap && TixstockMap[TixstockMap[k]] == k
      ensures k != TixstockMap[k] && AllDigits(k) && k != []
    {
      if k in TixstockCodes {
        CounterpartOfShort(k);
      } else {
        var c :| c in TixstockCodes && Counterpart(c) == k;
        CounterpartOfShort(c);
      }
    }
  }

  /** `translate_block_for_tixstock`: the block itself for other sources; for
      TixStock the upper-cased, stripped block, then its counterpart if it has one. */
  function TranslateBlock(block: string, source: string): (r: seq<string>)
    ensures 1 <= |r| <= 2
  {
    if Lower(source) != "tixstock" then [block]
    else
      var upper := Strip(Upper(block));
      [upper] + (if upper in TixstockMap then [TixstockMap[upper]] else [])
  }

  /** A digit string is its own upper-cased, stripped form. */
  lemma DigitsCanonical(s: string)
    requires AllDigits(s)
    ensures Strip(Upper(s)) == s
  {
    assert Upper(s) == s;
    if s != [] {
      StripOfStripped(s);
    }
  }

  /** Translating a TixStock translation leads back: the counterpart of `b`
      translates to itself and then to `b`'s canonical form. */
  lemma TranslateRoundTrip(block: string)
    requires |TranslateBlock(block, "tixstock")| == 2
    ensures var r := TranslateBlock(block, "tixstock");
      TranslateBlock(r[1], "tixstock") == [r[1], r[0]]
  {
    var r := TranslateBlock(block, "tixstock");
    assert Lower("tixstock") == "tixstock";
    TixstockInvolution();
    DigitsCanonical(r[1]);
  }

  /** For TixStock the first translation is the canonical form and any second one
      is its table counterpart; other sources get the block back unchanged. */
  lemma TranslateFacts(block: string, source: string)
    ensures var r := TranslateBlock(block, source);
      if Lower(source) == "tixstock" then
        r[0] == Strip(Upper(block))
        && (|r| == 2 <==> r[0] in TixstockMap)
        && (|r| == 2 ==> r[1] != r[0] && r[1] in TixstockMap && TixstockMap[r[1]] == r[0])
      else r == [block]
  {
    TixstockInvolution();
  }

  /** `is_specific_block_order`: the order allows exactly one block. */
  predicate IsSpecificBlockOrder(allowedBlocks: seq<string>): (r: bool)
    ensures r <==> allowedBlocks != [] && allowedBlocks == [allowedBlocks[0]]
  {
    |allowedBlocks| == 1
  }

  // ---------------------------------------------------------------------------
  // extract_teams

  /** `re.sub(r'\([^)]*\)', '', s)`: drop every "(" up to the next ")"; an
      unclosed "(" stays. */
  function RemoveParens(s: string): (r: string)
    ensures |r| <= |s|
    decreases |s|
  {
    if s == [] then []
    else if s[0] == '(' && IndexOfChar(s[1..], ')') < |s| - 1 then
      RemoveParens(s[IndexOfChar(s[1..], ')') + 2..])
    else [s[0]] + RemoveParens(s[1..])
  }

  predicate IsDateSep(c: char) { c == '/' || c == '-' }

  /** `\d{1,2}[/-]` at `p`, tried greedily: the length of the digits, or 0. */
  function DayPart(s: string, p: nat): (n: nat)
    ensures n <= 2 && (n > 0 ==> p + n < |s|)
  {
    if p + 2 < |s| && IsDigit(s[p]) && IsDigit(s[p + 1]) && IsDateSep(s[p + 2]) then 2
    else if p + 1 < |s| && IsDigit(s[p]) && IsDateSep(s[p + 1]) then 1
    else 0
  }

  /** Length of the match of `\d{1,2}[/-]\d{1,2}[/-]\d{2,4}` starting at `i`, or 0.
      Each `\d{1,2}` must be followed by a separator, so at most one of its two
      lengths can succeed and backtracking never picks another; `\d{2,4}` takes
      as many digits as there are, up to four. */
  function DateAt(s: string, i: nat): (n: nat)
    ensures n == 0 || (i + n <= |s| && n >= 6)
  {
    var a := DayPart(s, i);
    if a == 0 then 0
    else
      var b := DayPart(s, i + a + 1);
      if b == 0 then 0
      else
        var q := i + a + 1 + b + 1;
        var year := if SkipDigits(s, q) - q >= 4 then 4 else SkipDigits(s, q) - q;
        if year >= 2 then q + year - i else 0
  }

  /** `re.sub(r'\d{1,2}[/-]\d{1,2}[/-]\d{2,4}', '', s)`, scanning left to right. */
  function RemoveDates(s: string): (r: string)
    ensures |r| <= |s|
    decreases |s|
  {
    if s == [] then []
    else if DateAt(s, 0) > 0 then RemoveDates(s[DateAt(s, 0)..])
    else [s[0]] + RemoveDates(s[1..])
  }

  /** The separators of the split, in the regex's order of alternatives. */
  const Separators: seq<string> := ["VS", "V", "VS.", "-", "–"]

  /** The first alternative that starts at `j` and is followed by whitespace. */
  function SeparatorAt(s: string, j: nat, alts: seq<string>): (r: Option<nat>)
    ensures r.Some? ==> r.value > 0 && j + r.value < |s| && IsSpace(s[j + r.value])
  {
    if alts == [] then None
    else if alts[0] != [] && StartsWithAt(s, j, alts[0]) && j + |alts[0]| < |s| && IsSpace(s[j + |alts[0]|])
    then Some(|alts[0]|)
    else SeparatorAt(s, j, alts[1..])
  }

  /** End of the match of `\s+(?:VS|V|VS\.|-|–)\s+` starting at `i`, if any.
      Both `\s+` take the whole whitespace run: the alternatives start with no
      whitespace, so giving some back never helps. */
  function SplitAt(s: string, i: nat): (r: Option<nat>)
    requires i <= |s|
    ensures r.Some? ==> i < r.value <= |s|
  {
    if i < |s| && IsSpace(s[i]) then
      var j := SkipSpaces(s, i);
      match SeparatorAt(s, j, Separators)
      case Some(n) => Some(SkipSpaces(s, j + n))
      case None => None
    else None
  }

  /** `re.split(...)` from index `i`, with the current piece starting at `start`. */
  function SplitFrom(s: string, start: nat, i: nat): (parts: seq<string>)
    requires start <= i <= |s|
    ensures parts != []
    decreases |s| - i
  {
    if i == |s| then [s[start..]]
    else
      match SplitAt(s, i)
      case Some(e) => [s[start..i]] + SplitFrom(s, e, e)
      case None => SplitFrom(s, start, i + 1)
  }

  function SplitTeams(s: string): seq<string> {
    SplitFrom(s, 0, 0)
  }

  /** `extract_teams`: the stripped pieces longer than two characters. */
  function ExtractTeams(game: string): (teams: set<string>)
    ensures forall t :: t in teams ==> |t| > 2
  {
    var parts := SplitTeams(RemoveDates(RemoveParens(Upper(Norm(game)))));
    set p | p in parts && |Strip(p)| > 2 :: Strip(p)
  }

  /** A team name carries no whitespace at either end. */
  lemma TeamsStripped(game: string)
    ensures forall t :: t in ExtractTeams(game) ==> NoEdgeSpace(t) && Strip(t) == t
  {
    var parts := SplitTeams(RemoveDates(RemoveParens(Upper(Norm(game)))));
    forall t | t in ExtractTeams(game) ensures NoEdgeSpace(t) && Strip(t) == t {
      var p :| p in parts && |Strip(p)| > 2 && Strip(p) == t;
      StripFacts(p);
    }
  }

  /** `games_match`: some team of the order's event contains, or is contained
      in, some team of the ticket's game. */
  predicate GamesMatch(orderEvent: string, ticketGame: string) {
    exists a, b :: a in ExtractTeams(orderEvent) && b in ExtractTeams(ticketGame)
      && (Contains(b, a) || Contains(a, b))
  }

  lemma GamesMatchSymmetric(x: string, y: string)
    ensures GamesMatch(x, y) <==> GamesMatch(y, x)
  {
  }

  /** No team on one side (all pieces of two characters or fewer) means no match. */
  lemma GamesMatchNeedsTeams(x: string, y: string)
    ensures (ExtractTeams(x) == {} || ExtractTeams(y) == {}) ==> !GamesMatch(x, y)
  {
  }

  // ---------------------------------------------------------------------------
  // parse_up_to

  /** The number of the match of `up\s*to\s*(\d+)\s*together` starting at `i`. Each
      `\s*` and `\d+` is followed by a letter it cannot match, so the greedy
      choice is the only one that can succeed. */
  function UpToAt(s: string, i: nat): (r: Option<nat>)
    requires i <= |s|
  {
    if !StartsWithAt(s, i, "up") then None
    else
      var p := SkipSpaces(s, i + 2);
      if !StartsWithAt(s, p, "to") then None
      else
        var q := SkipSpaces(s, p + 2);
        var d := SkipDigits(s, q);
        if d == q then None
        else
          var e := SkipSpaces(s, d);
          if StartsWithAt(s, e, "together") then Some(DecimalValue(s[q..d])) else None
  }

  /** `re.search`: the leftmost match at or after `i`. */
  function UpToSearch(s: string, i: nat): (r: Option<nat>)
    requires i <= |s|
    decreases |s| - i
  {
    match UpToAt(s, i)
    case Some(n) => Some(n)
    case None => if i == |s| then None else UpToSearch(s, i + 1)
  }

  /** `parse_up_to`: 1 for any "single" seating, else the number of "up to N together". */
  function ParseUpTo(seating: string): Option<nat> {
    var s := Lower(Norm(seating));
    if Contains(s, "single") then Some(1) else UpToSearch(s, 0)
  }

  /** `parse_up_to(seating) or 2`: a missing or zero number means 2. */
  function UpToOrDefault(seating: string): (n: nat)
    ensures n > 0
  {
    match ParseUpTo(seating)
    case Some(n) => if n == 0 then 2 else n
    case None => 2
  }

  /** The seating text `parse_orders` writes when a row leaves it blank. */
  const DefaultSeating: string := "Up To 2 Together"

  /** The seating text "Up To <n> Together". */
  function UpToSeating(n: nat): string {
    "Up To " + DecimalString(n) + " Together"
  }

  /** No "s" in the text means no "single" in it. */
  lemma NoSingleWithoutS(s: string)
    requires forall i :: 0 <= i < |s| ==> s[i] != 's'
    ensures !Contains(s, "single")
  {
    forall k: nat | k <= |s| - 6 ensures !StartsWithAt(s, k, "single") {
      if k + 6 <= |s| {
        assert s[k..k + 6][0] == s[k];
      }
    }
  }

  lemma SkipSpacesStops(s: string, from: nat, to: nat)
    requires from <= to < |s| && !IsSpace(s[to]) && forall i :: from <= i < to ==> IsSpace(s[i])
    ensures SkipSpaces(s, from) == to
  {
  }

  lemma SkipDigitsStops(s: string, from: nat, to: nat)
    requires from <= to < |s| && !IsDigit(s[to]) && forall i :: from <= i < to ==> IsDigit(s[i])
    ensures SkipDigits(s, from) == to
  {
  }

  /** `norm` and `lower` turn "Up To <n> Together" into "up to <n> together". */
  lemma SeatingNormalised(n: nat)
    ensures Lower(Norm(UpToSeating(n))) == "up to " + DecimalString(n) + " together"
  {
    SeatingSingleSpaced(n);
    NormOfSingleSpaced(UpToSeating(n));
    SeatingLower(n);
  }

  lemma SeatingSingleSpaced(n: nat)
    ensures SingleSpaced(UpToSeating(n))
  {
    var d := DecimalString(n);
    var text := UpToSeating(n);
    assert text == "Up To " + d + " Together";
    forall i | 6 <= i < 6 + |d| ensures !IsSpace(text[i]) {
      assert text[i] == d[i - 6];
    }
  }

  lemma SeatingLower(n: nat)
    ensures Lower(UpToSeating(n)) == "up to " + DecimalString(n) + " together"
  {
    var d := DecimalString(n);
    var text := UpToSeating(n);
    var low := "up to " + d + " together";
    forall i | 0 <= i < |text| ensures LowerChar(text[i]) == low[i] {
      if 6 <= i < 6 + |d| {
        assert text[i] == d[i - 6] == low[i];
      }
    }
  }

  /** The literal parts of "up to <d> together" and where they sit. */
  lemma UpToTextShape(d: string)
    requires d != []
    ensures var low := "up to " + d + " together";
      var e := 6 + |d|;
      StartsWithAt(low, 0, "up") && StartsWithAt(low, 3, "to") && StartsWithAt(low, e + 1, "together")
      && low[2] == ' ' && low[5] == ' ' && low[e] == ' ' && low[6..e] == d
  {
  }

  /** Where the regex's `\s*` and `\d+` stop in "up to <d> together". */
  lemma UpToTextScans(d: string)
    requires d != [] && forall i :: 0 <= i < |d| ==> IsDigit(d[i])
    ensures var low := "up to " + d + " together";
      var e := 6 + |d|;
      SkipSpaces(low, 2) == 3 && SkipSpaces(low, 5) == 6 && SkipDigits(low, 6) == e && SkipSpaces(low, e) == e + 1
  {
    UpToSpaceScans(d);
    UpToDigitScan(d);
  }

  lemma UpToSpaceScans(d: string)
    requires d != [] && IsDigit(d[0])
    ensures var low := "up to " + d + " together";
      var e := 6 + |d|;
      SkipSpaces(low, 2) == 3 && SkipSpaces(low, 5) == 6 && SkipSpaces(low, e) == e + 1
  {
    var low := "up to " + d + " together";
    var e := 6 + |d|;
    assert low[3] == 't' && low[6] == d[0] && low[e + 1] == 't';
    UpToTextShape(d);
    SkipSpacesStops(low, 2, 3);
    SkipSpacesStops(low, 5, 6);
    SkipSpacesStops(low, e, e + 1);
  }

  lemma UpToDigitScan(d: string)
    requires d != [] && forall i :: 0 <= i < |d| ==> IsDigit(d[i])
    ensures SkipDigits("up to " + d + " together", 6) == 6 + |d|
  {
    var low := "up to " + d + " together";
    var e := 6 + |d|;
    UpToTextShape(d);
    forall i | 6 <= i < e ensures IsDigit(low[i]) {
      assert low[i] == d[i - 6];
    }
    SkipDigitsStops(low, 6, e);
  }

  /** The regex matches "up to <d> together" at its start and captures `d`. */
  lemma UpToMatchesAtStart(d: string)
    requires d != [] && forall i :: 0 <= i < |d| ==> IsDigit(d[i])
    ensures UpToAt("up to " + d + " together", 0) == Some(DecimalValue(d))
  {
    UpToTextShape(d);
    UpToTextScans(d);
  }

  /** `parse_up_to` reads back the number of "Up To <n> Together". */
  lemma ParseUpToRoundTrip(n: nat)
    ensures ParseUpTo(UpToSeating(n)) == Some(n)
  {
    SeatingNormalised(n);
    LowSeatingParses(n);
  }

  /** The scan of `parse_up_to` finds no "single" in "up to <n> together" and reads `n`. */
  lemma LowSeatingParses(n: nat)
    ensures var low := "up to " + DecimalString(n) + " together";
      !Contains(low, "single") && UpToSearch(low, 0) == Some(n)
  {
    var d := DecimalString(n);
    var low := "up to " + d + " together";
    assert forall i :: 6 <= i < 6 + |d| ==> low[i] == d[i - 6];
    NoSingleWithoutS(low);
    UpToMatchesAtStart(d);
    DecimalRoundTrip(n);
  }

  /** The default seating asks for tickets two together. */
  lemma DefaultSeatingIsTwo()
    ensures ParseUpTo(DefaultSeating) == Some(2) && UpToOrDefault(DefaultSeating) == 2
  {
    assert DecimalString(2) == "2";
    assert UpToSeating(2) == DefaultSeating;
    ParseUpToRoundTrip(2);
  }
}
