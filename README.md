# TicketSense allocation engine in Dafny

This project models the deterministic core of TicketSense: the rules that decide
which physical seats (game, block, row, seat) from a ticket sheet go to a
customer order. It has four parts, each proved against a specification of its
own.

- **Seat grouping.** `classify_together` gives every ticket exactly one tag:
  SINGLE, PAIR, "<N> together", SCH-<gaps> or SCH. It works in three passes over
  a result table: runs of seats two apart, gap pairs within a row, and diagonal
  pairs across rows, including the block-618 exception table. The imperative
  passes are methods proved equal to recursive specification functions. The
  final tag list is proved to be a classification: runs are kept, every SCH tag
  has a partner and sits on an even number of records, and no pairing is left
  undone.
- **Order allocator.** `choose_tickets_for_order` and its helpers:
  - TixStock block translation;
  - team extraction and event matching;
  - `parse_up_to`;
  - the candidate filter with its failure counters;
  - the block-priority sort;
  - the single-ticket decision ladder;
  - the multi-ticket sliding window.

  The method is proved equal to a function, `Choose`. Lemmas state what every
  outcome means.
- **Block resolution** in `main.py`:
  - source normalisation;
  - explicit-block extraction;
  - fuzzy category matching;
  - category levels and upgrades;
  - the short-side/lateral rule;
  - hierarchical mapping expansion;
  - the block-ownership map;
  - the exclusivity sort;
  - `allowed_blocks`.

  Mapping files, the hierarchy file and the global caches become explicit
  parameters.
- **Row parsers.** `parse_orders` and `parse_tickets` turn sheet rows into
  `Order` and `Ticket` records.

How Python constructs are modelled:
- Strings are `seq<char>`.
- Python dictionaries that keep insertion order are sequences of key/value pairs (`BlockTables.Entries`).
- `sorted` is a stable insertion sort by a key (`Sorting.SortByKey`).
- `int(float(x))` is a parameter `parseNum: string -> Option<int>`.

Modules:
- `Wrappers`, `Text`, `Sorting`: shared helpers.
- `SeatClassifier`.
- `AllocatorRecords`, `AllocatorHelpers`, `CandidateFilter`, `SinglePath`, `MultiPath`, `Allocator`.
- `Categories`, `BlockTables`, `BlockSelection`, `SheetRows`.

## Model

| member | source | states |
|---|---|---|
| SeatClassifier.ClassifyTogether | engine/seat_classifier.py:16-131 | the tag list has one tag per record and equals `Classify` of the records' whitespace-collapsed keys, so it depends only on (game, block, row, seat); it satisfies `IsClassification`: every tag well formed ("<N> together" with N >= 3, SCH-k with 1 <= k <= 19), pass-1 tags kept, every SCH-k and SCH paired, each SCH and SCH-k tag on an even number of records, no gap or diagonal pairing left undone |
| SeatClassifier.ClassifyKeys | engine/seat_classifier.py:28-131 | the three passes run on normalised keys give `Classify(keys)`, which is a classification |
| SeatClassifier.BuildIndex | engine/seat_classifier.py:29-38 | `seat_map` maps each key to the last record carrying it; `row_groups` has a key for exactly the rows seen, in first-appearance order, each listing its records' (index, seat) in index order |
| SeatClassifier.AddRecord | engine/seat_classifier.py:33-38 | one more record keeps the index tables equal to their specification on the longer prefix |
| SeatClassifier.RowOrderFacts | engine/seat_classifier.py:30-38 | the row-group keys are distinct and are exactly the rows of the records seen so far |
| SeatClassifier.ParityListSorted | engine/seat_classifier.py:42-43 | a row's even (or odd) list is sorted by seat |
| SeatClassifier.ParityListDistinct | engine/seat_classifier.py:42-43 | a parity list names each record at most once |
| SeatClassifier.ParityListComplete | engine/seat_classifier.py:42-43 | every record of the row with that seat parity is in the list |
| SeatClassifier.ParityListMembers | engine/seat_classifier.py:42-43 | every list entry is a record of that row and parity, with its own seat |
| SeatClassifier.FlushRun | engine/seat_classifier.py:55-67 | a run of two or more gets `PAIR` / "<N> together" on every member; every other record keeps its tag |
| SeatClassifier.TagRuns | engine/seat_classifier.py:45-67 | each listed record gets the tag of the maximal step-2 run it lies in; unlisted records are unchanged |
| SeatClassifier.CloseRun | engine/seat_classifier.py:54-61 | closing a maximal run extends the scan invariant to the run's end |
| SeatClassifier.RunLine | engine/seat_classifier.py:42-67 | records of this row and parity get their pass-1 tag; all others keep theirs |
| SeatClassifier.PassRuns | engine/seat_classifier.py:40-67 | after pass 1 every record carries `Pass1Tag`: PAIR for a maximal run of two, "<N> together" for N >= 3, else SINGLE |
| SeatClassifier.Pass1TagsFacts | engine/seat_classifier.py:56-66 | pass-1 tags are well formed and never SCH or SCH-k |
| SeatClassifier.FirstGapPartnerFacts | engine/seat_classifier.py:78-88 | the gap partner found is eligible (both SINGLE, later seat, difference 4 to 40) and no earlier entry was |
| SeatClassifier.GapPairs | engine/seat_classifier.py:77-88 | the nested first-match loop equals the specification `GapScan` |
| SeatClassifier.GapScanRetags | engine/seat_classifier.py:77-88 | pass 2 changes only SINGLE records, only to a well-formed SCH-k, and only records of its list |
| SeatClassifier.GapScanPaired | engine/seat_classifier.py:84-87 | every SCH-k record has a distinct partner in its row and parity carrying the same tag, with seat difference 2k+2 |
| SeatClassifier.GapScanSaturates | engine/seat_classifier.py:77-88 | after the scan no anchor is left with an eligible later partner |
| SeatClassifier.GapScanNoCloseSingles | engine/seat_classifier.py:77-88 | after the scan no two SINGLEs of one parity list are 4 to 40 seats apart |
| SeatClassifier.GapGroupLine | engine/seat_classifier.py:71-88 | lists shorter than two are skipped, the rest are sorted and scanned, equal to `GapLine` |
| SeatClassifier.GapRowsFacts | engine/seat_classifier.py:69-88 | pass 2 only retags SINGLEs to SCH-k, keeps SCH-k paired and leaves every visited row saturated |
| SeatClassifier.PassGaps | engine/seat_classifier.py:69-88 | pass 2 over the row groups in insertion order equals `GapRows` |
| SeatClassifier.TargetsFacts | engine/seat_classifier.py:92-127 | every probed seat is in the same game and block and another row, and the probe relation is symmetric |
| SeatClassifier.ProbeFacts | engine/seat_classifier.py:107-127 | the probe stops at the first target, in the order special pairs, row-1 then row+1, offsets -2, 0, +2, that exists and is SINGLE |
| SeatClassifier.PassDiagonal | engine/seat_classifier.py:98-129 | pass 3 equals the specification `DiagScan` |
| SeatClassifier.DiagScanPaired | engine/seat_classifier.py:111-126 | every SCH record has a distinct SCH partner over or under it |
| SeatClassifier.DiagScanSaturates | engine/seat_classifier.py:98-129 | every record still SINGLE has no SINGLE among its probed seats |
| SeatClassifier.ClassifyRuns | engine/seat_classifier.py:40-99 | final tags are well formed; pass-1 PAIR and "<N> together" tags survive passes 2 and 3, and no later pass creates one |
| SeatClassifier.ClassifyPaired | engine/seat_classifier.py:81-127 | in the final result every SCH-k record has a partner in its row and parity with the same tag and seat difference 2k+2, and every SCH record has an SCH partner over or under it |
| SeatClassifier.ClassifySaturated | engine/seat_classifier.py:76-129 | in the final result no two SINGLEs of one row and parity are 4 to 40 apart, and two SINGLEs over one another occur only for a duplicate seat that `seat_map` overwrote |
| SeatClassifier.ClassifyFacts | engine/seat_classifier.py:16-131 | `Classify` always yields a classification |
| SeatClassifier.PairRetagEven | engine/seat_classifier.py:87 | giving two distinct SINGLE records one common tag keeps the count of every SCH and SCH-k tag even |
| SeatClassifier.GapStepEven | engine/seat_classifier.py:77-88 | one anchor of pass 2 retags two distinct SINGLE records or none, so SCH counts stay even |
| SeatClassifier.GapScanEven | engine/seat_classifier.py:77-88 | pass 2 on one sorted list keeps every SCH count even |
| SeatClassifier.GapLineEven | engine/seat_classifier.py:70-88 | pass 2 on one row and parity keeps every SCH count even |
| SeatClassifier.GapRowsEven | engine/seat_classifier.py:69-88 | pass 2 over all rows keeps every SCH count even |
| SeatClassifier.DiagStepEven | engine/seat_classifier.py:98-129 | one record of pass 3 tags itself and a distinct SINGLE target SCH, or nothing, so SCH counts stay even |
| SeatClassifier.DiagScanEven | engine/seat_classifier.py:98-129 | pass 3 keeps every SCH count even |
| SeatClassifier.ClassifyEven | engine/seat_classifier.py:69-129 | in the final result each of SCH and SCH-k sits on an even number of records (pass 1 makes none, and every later assignment tags two) |
| Text.Norm | engine/allocator.py:8-9 | `norm`: strip, then collapse every whitespace run (full `isspace` set) to one space; the result equals `" ".join(s.split())` (`JoinSpace(Words(s))`, with `Words` the maximal non-whitespace runs in order), so each inner run becomes exactly one space; it holds whitespace only as single spaces between other characters and keeps every other character of the input, in order |
| Text.SplitJoinRoundTrip | engine/allocator.py:8-9 | splitting a single-space join of words gives back the same words, so `norm` keeps the word boundaries that block and team comparison rely on |
| Text.NormKeepsWords | engine/allocator.py:8-9 | `norm(s).split()` equals `s.split()`: normalising changes only the whitespace between words, never the words |
| Text.NormFixedPoints | engine/seat_classifier.py:13-14 | `_norm_str`, the same function as `norm`, leaves a text unchanged iff it is already single-spaced, so normalising twice is normalising once |
| AllocatorHelpers.IsSpecificBlockOrder | engine/allocator.py:31-33 | an order is block-specific iff exactly one block is allowed |
| AllocatorHelpers.TixstockInvolution | engine/allocator.py:12-19 | the TixStock table is an involution with no fixed point over non-empty digit strings |
| AllocatorHelpers.TranslateFacts | engine/allocator.py:21-29 | a non-TixStock source gives `[block]`; TixStock gives the upper-cased, stripped block first, then its table counterpart exactly when the block is a table key |
| AllocatorHelpers.TranslateRoundTrip | engine/allocator.py:21-29 | translating a TixStock counterpart gives back the original block as its counterpart |
| AllocatorHelpers.ExtractTeams | engine/allocator.py:44-48 | every extracted team is longer than two characters |
| AllocatorHelpers.TeamsStripped | engine/allocator.py:35-49 | extracted teams carry no surrounding whitespace |
| AllocatorHelpers.GamesMatchSymmetric | engine/allocator.py:51-62 | `games_match(a, b)` equals `games_match(b, a)`; immediate from the definition |
| AllocatorHelpers.GamesMatchNeedsTeams | engine/allocator.py:51-62 | a side without any team never matches |
| AllocatorHelpers.UpToMatchesAtStart | engine/allocator.py:92-94 | the regex `up\s*to\s*(\d+)\s*together` reads the number out of "up to N together" |
| AllocatorHelpers.ParseUpToRoundTrip | engine/allocator.py:88-95 | `parse_up_to("Up To N Together")` is N |
| AllocatorHelpers.UpToOrDefault | engine/allocator.py:174 | `parse_up_to(s) or 2` is always positive |
| AllocatorHelpers.DefaultSeatingIsTwo | engine/allocator.py:174 | the default seating "Up To 2 Together" parses to 2 |
| CandidateFilter.BuildAllowedSet | engine/allocator.py:106-111 | the loop builds `AllowedSet`, the union of the upper-cased, stripped translations |
| CandidateFilter.UnionOfTranslations | engine/allocator.py:108-111 | the loop equals the union over every block's translations |
| CandidateFilter.AddTranslations | engine/allocator.py:110-111 | one block adds exactly its stripped translations |
| CandidateFilter.TranslatedKeysFacts | engine/allocator.py:21-29 | a block's translations are exactly its canonical form and, for TixStock, its table counterpart |
| CandidateFilter.TranslatedKeysTixstock | engine/allocator.py:21-29 | for TixStock the translations of a block are its canonical form plus its counterpart if it has one |
| CandidateFilter.CanonicalIdempotent | engine/allocator.py:111 | upper-casing and stripping twice is the same as once |
| CandidateFilter.AllowedSetMembers | engine/allocator.py:106-111 | x is allowed iff some allowed block's canonical form is x or, for TixStock, x is its counterpart |
| CandidateFilter.AllowedSetClosed | engine/allocator.py:106-111 | for TixStock the allowed set is closed under the counterpart table |
| CandidateFilter.Tally | engine/allocator.py:121-135 | one more ticket keeps candidates and the three failure counters equal to their specification |
| CandidateFilter.FilterTickets | engine/allocator.py:116-135 | returns the candidates and the game, block and already-assigned failure counts of the verdicts |
| CandidateFilter.FilterPartition | engine/allocator.py:121-135 | the three failure counts plus the candidates add up to the tickets examined |
| CandidateFilter.KeptSound | engine/allocator.py:134-135 | every candidate is an examined ticket whose verdict is Candidate |
| CandidateFilter.KeptComplete | engine/allocator.py:134-135 | every ticket whose verdict is Candidate is kept |
| CandidateFilter.CandidatesExact | engine/allocator.py:121-135 | a ticket is a candidate iff it is in the pool and passes the filter |
| CandidateFilter.FilterCountsAddUp | engine/allocator.py:116-135 | failure counts plus candidates equal the pool size |
| CandidateFilter.CandidateMeaning | engine/allocator.py:122-135 | the filter keeps a ticket iff it is in the pool, its game matches the event, its normalised block is allowed and its `assigned_to` is blank |
| CandidateFilter.BuildBlockPriority | engine/allocator.py:148-156 | the loop builds `Priority(blocks, source)` |
| CandidateFilter.PriorityLoop | engine/allocator.py:149-156 | the loop equals the specification `PriorityOf` |
| CandidateFilter.AddTranslationPriorities | engine/allocator.py:154-156 | translations fill only keys that are still missing |
| CandidateFilter.PriorityKeys | engine/allocator.py:149-156 | a key has a priority iff some block names it, and its priority is the index of a block naming it |
| CandidateFilter.PriorityKeyMembers | engine/allocator.py:149-156 | the keys are exactly the names the blocks give |
| CandidateFilter.PriorityKeyValues | engine/allocator.py:149-156 | each priority is the index of a block that names the key |
| CandidateFilter.PriorityDirectLast | engine/allocator.py:150-151 | a repeated block's priority is its last position |
| CandidateFilter.PriorityTranslationFirst | engine/allocator.py:153-156 | a name reached only by translation keeps the first position that produced it |
| CandidateFilter.SortedCandidates | engine/allocator.py:158-167 | the candidate sort is ordered by (priority, -block number), is a permutation and is stable |
| SinglePath.SingleShape | engine/allocator.py:176-198 | an assignment is one candidate; any other result is NOT_AVAILABLE with no tickets; reasons come from the single ladder |
| SinglePath.SinglePreferred | engine/allocator.py:177-179 | with any SINGLE present, the first SINGLE in candidate order is assigned |
| SinglePath.PairOnlyWhenAllowed | engine/allocator.py:181-193 | a PAIR member is used only with no SINGLE, on a specific-block order or with the strict rule off, and it is the first PAIR |
| SinglePath.SchLastResort | engine/allocator.py:194-197 | an SCH member is used exactly when the strict rule is off, there is no SINGLE or PAIR and some SCH or SCH-k member exists; it is then ASSIGNED and is the first SCH or SCH-k member (`schs[0]`) |
| SinglePath.NeverFromRun | engine/allocator.py:176-198 | the single path never takes a "<N> together" ticket |
| SinglePath.SingleUnavailable | engine/allocator.py:176-198 | NOT_AVAILABLE exactly when no rung of the ladder applies |
| MultiPath.BuildTicketGroups | engine/allocator.py:219-225 | groups keyed on raw (game, block, row), in insertion order, each listing its candidates with index and tag |
| MultiPath.AddMember | engine/allocator.py:221-225 | one more candidate keeps the grouping equal to its specification |
| MultiPath.GroupMembersFacts | engine/allocator.py:220-225 | every group member is a candidate with its own tag and that group's key |
| MultiPath.GroupOrderFacts | engine/allocator.py:219-225 | group keys are distinct and cover every candidate |
| MultiPath.GroupMembersComplete | engine/allocator.py:220-225 | every candidate is in its group |
| MultiPath.PySliceInside | engine/allocator.py:243 | a Python slice inside the bounds is the ordinary subsequence |
| MultiPath.PySliceWithin | engine/allocator.py:243 | every element of a Python slice is an element of the list |
| MultiPath.ScanStop | engine/allocator.py:239-241 | the window loop visits exactly len - need + 1 starts when 1 <= need <= len, and none when need > len |
| MultiPath.GapCountMeaning | engine/allocator.py:251-260 | the difference check succeeds iff every difference is 2 or 4, and then counts the 4s |
| MultiPath.GapCountRejectsExtension | engine/allocator.py:253-260 | the break at a bad difference is sound: a longer list with a rejected prefix is rejected |
| MultiPath.CountGaps | engine/allocator.py:251-260 | the loop returns valid iff every difference is 2 or 4, and the number of 4s |
| MultiPath.FitStrictMeaning | engine/allocator.py:262-271 | a window is strictly adjacent iff every step is 2 |
| MultiPath.FitGapMeaning | engine/allocator.py:262-274 | a window is an SCH window iff `allow_sch` holds, every step is 2 or 4, and there is exactly one 4 |
| MultiPath.WindowFit | engine/allocator.py:243-274 | the checks on one window equal `FitOf` on its seats |
| MultiPath.ScanStep | engine/allocator.py:242-274 | one more window start extends the found lists by that window's fit |
| MultiPath.ScanGroup | engine/allocator.py:235-274 | the sliding window over one sorted group equals `GroupFound` |
| MultiPath.ScanFromFacts | engine/allocator.py:239-274 | every window listed strict or SCH is a slice of the group with that fit |
| MultiPath.GroupFoundFacts | engine/allocator.py:235-274 | every window found is a run of `need` consecutive seat-sorted members of the group, classed by its fit |
| MultiPath.CollectWindows | engine/allocator.py:230-274 | windows of all groups are gathered in group order |
| MultiPath.ConcatFacts | engine/allocator.py:233-274 | every gathered window comes from some group |
| MultiPath.BestFacts | engine/allocator.py:282-293 | the chosen window has the largest block number, and no earlier window has that number |
| MultiPath.TakeTickets | engine/allocator.py:295-297 | the chosen tickets are the window's tickets in order |
| MultiPath.DecideWindows | engine/allocator.py:276-302 | the decision over found windows equals `Decide` |
| MultiPath.ChooseWindow | engine/allocator.py:215-302 | the multi path equals `MultiDecision` |
| MultiPath.ChosenFacts | engine/allocator.py:276-293 | the chosen window is a window of a group, strictly adjacent whenever any strict window exists, else an SCH window; none only when nothing was found |
| MultiPath.ChosenIsBest | engine/allocator.py:276-293 | strict windows beat SCH windows; within the class the largest block number wins, ties to the first found |
| MultiPath.WindowAssignment | engine/allocator.py:243-300 | a full window yields a together assignment of candidates |
| MultiPath.AssignedSeats | engine/allocator.py:247-274 | assigned seats step by 2 or 4, with at most one 4 and a 4 only when `allow_sch` holds |
| MultiPath.MultiAssigned | engine/allocator.py:215-302 | an ASSIGNED result holds `need` candidates from one (game, block, row), seat-sorted with steps 2 or 4, at most one 4 and that only with `allow_sch`; any other result is NOT_AVAILABLE with no tickets |
| MultiPath.MultiQuantity | engine/allocator.py:239-302 | for need >= 1, ASSIGNED iff a preferred window exists; INSUFFICIENT_ADJACENT is unreachable for need >= 0 but a negative qty always ends NOT_AVAILABLE; qty 0 with candidates is ASSIGNED with no tickets |
| MultiPath.ScanFromComplete | engine/allocator.py:262-274 | every tried window that fits is kept, in the list its fit names |
| MultiPath.ConcatComplete | engine/allocator.py:230-274 | joining the groups' lists keeps every window of every group |
| MultiPath.SliceComplete | engine/allocator.py:239-274 | every run of `need` consecutive sorted members is tried and kept when it fits |
| MultiPath.GroupFoundComplete | engine/allocator.py:235-274 | every run of `need` consecutive seat-sorted members of a group that fits is among the group's windows of its fit |
| MultiPath.WindowFound | engine/allocator.py:230-302 | for need >= 1, every fitting run of `need` consecutive seat-sorted members of any group is found, a strict one among the strict windows and one with a gap among the SCH windows, and then the order is ASSIGNED |
| MultiPath.BadStepRejected | engine/allocator.py:251-260 | a window with two neighbouring seats not 2 or 4 apart is rejected; no window holds both copies of a duplicated seat (their step of 0 rejects it) |
| MultiPath.ZeroNeedFindsWindow | engine/allocator.py:239-271 | with qty 0 and at least one candidate, an (empty) strict window is always found |
| Allocator.ProfileKey | engine/allocator.py:203-209 | the pairing profile is one of goldenseat_priority, when_allow_sch, when_disallow_sch |
| Allocator.DispatchSorted | engine/allocator.py:170-302 | classification, then the single or multi path, equal to `Dispatch` |
| Allocator.ChooseTicketsForOrder | engine/allocator.py:97-302 | the method equals the function `Choose` |
| Allocator.SortedCandidatesFacts | engine/allocator.py:145-167 | the sorted candidates are a permutation of the filtered candidates, each from the pool and passing the filter |
| Allocator.RouteFacts | engine/allocator.py:174-302 | never NEEDS_APPROVAL; non-ASSIGNED carries no tickets; ASSIGNED holds 1 ticket on the single path and qty on the multi path; a `KeyError` arises only on the multi path |
| Allocator.ChooseFacts | engine/allocator.py:97-302 | CHANGED_CATEGORY_NOT_IN_MAPPING iff no allowed blocks; NEEDS_APPROVAL never; non-ASSIGNED has no tickets; the no-stock counts sum to the pool; assigned tickets are candidates, 1 or qty of them |
| Allocator.ProfileIrrelevant | engine/allocator.py:203-209 | replacing the pairing-priority table never changes the outcome |
| Allocator.RouteProfileIrrelevant | engine/allocator.py:203-302 | the profile looked up is never read afterwards; immediate from the definition of `Route` |
| Allocator.SinglePathIgnoresQuantity | engine/allocator.py:174-179 | "Up To 1" seating assigns at most one ticket whatever qty says |
| Sorting.SortIsSorted | engine/allocator.py:167 | the stable key sort yields a sequence ordered by key |
| Sorting.SortIsStable | engine/allocator.py:167 | among elements of equal key the input order is kept |
| Categories.NormalizeSource | main.py:144-157 | the result is a known source name or the lower-cased, stripped input |
| Categories.KnownSourcesFixed | main.py:147-156 | each canonical source name normalises to itself |
| Categories.NormalizeSourceIdempotent | main.py:144-157 | normalising twice equals normalising once |
| Categories.ExtractBlockFromCategory | main.py:160-165 | a result is three digits forming the suffix of the stripped category, preceded by a word boundary |
| Categories.BlockAfterName | main.py:160-165 | "<name> NNN" yields NNN |
| Categories.BlockNeedsBoundary | main.py:160-165 | digits glued to a word character yield nothing |
| Categories.MatchReflexive | main.py:180-208 | every category matches itself |
| Categories.MatchSymmetric | main.py:180-208 | matching is symmetric; immediate from the definition |
| Categories.NormalizeIgnoresCase | main.py:167-178 | normalisation ignores ASCII case |
| Categories.MatchIgnoresCase | main.py:180-208 | matching ignores ASCII case |
| Categories.FindLevel | main.py:86-88 | the first priority item with the upper-cased name, or none |
| Categories.CategoryLevel | main.py:81-96 | the level is a listed level or 99 |
| Categories.LevelOfListedName | main.py:84-88 | a listed name gets the level of its first listing |
| Categories.AliasLevelAt | main.py:90-94 | the alias loop returns the level of the first item listed under the first hitting alias's canonical name |
| Categories.AliasLevelMiss | main.py:90-96 | with no alias that names the category and has a listed canonical name, the alias loop gives 99 |
| Categories.LevelOfAlias | main.py:84-94 | a category named by no item takes the level of the first item listed under the canonical name of the first alias that names it and whose canonical name is listed |
| Categories.LevelUnknown | main.py:84-96 | a category named by no item and by no alias with a listed canonical name has level 99 |
| Categories.BetterThanMembers | main.py:103-106 | a name is collected iff some item with that name has a smaller level |
| Categories.GetUpgradeCategories | main.py:98-108 | the loop collects `BetterThan` of the category's level |
| Categories.NamesBelow | main.py:103-106 | the loop over the hierarchy collects `BetterThan`: the names whose level is below the given one, in hierarchy order |
| Categories.UpgradesAreBetter | main.py:98-108 | the upgrades are exactly the names with a level strictly below the category's |
| Categories.UnknownCategoryUpgrades | main.py:96-106 | an unknown category (level 99) is upgraded to every item below 99 |
| Categories.LateralRuleIgnoresCase | main.py:110-124 | the short-side and lateral rules ignore ASCII case |
| Categories.FondoBlocksLateral | main.py:110-124 | a FONDO category may never move to a LATERAL one |
| BlockTables.AssignFacts | main.py:277-288 | `d[k] = v` adds k to the keys and changes only k's value |
| BlockTables.KeysMembers | main.py:273 | a key is present iff some entry carries it |
| BlockTables.NextParent | main.py:273-284 | the next parent at or after a position, with no parent before it |
| BlockTables.ExpandHierarchicalMapping | main.py:259-290 | the loop equals the specification `Expand` |
| BlockTables.ExpandPrefixInv | main.py:273-284 | after each entry, the expansion state holds its invariant |
| BlockTables.ParentStep | main.py:274-279 | a parent entry (empty or null) stores the previous parent's collected blocks, opens a new parent and keeps the invariant |
| BlockTables.ChildStep | main.py:280-284 | a child entry keeps the invariant: it is stored unchanged and its blocks extend the open parent's list |
| BlockTables.ExpandKeys | main.py:259-290 | the expansion has exactly the input keys |
| BlockTables.ExpandKeepsChild | main.py:280-282 | a non-empty entry keeps its blocks |
| BlockTables.ExpandParent | main.py:274-288 | an empty or null parent gets the blocks of the children that follow it, up to the next parent |
| BlockTables.AddKeysOwns | main.py:365-369 | after one category, s owns b iff it did before or s is the source and b is listed |
| BlockTables.AddCategoriesOwns | main.py:364-369 | after one mapping, s owns b iff it did before or s is the source and some category lists b |
| BlockTables.AddSourcesOwns | main.py:362-369 | after several sources, ownership gains exactly their listed blocks |
| BlockTables.BlockSourcesMeaning | main.py:350-372 | s is in `map[b]` iff s is one of the five sources and b, upper-cased and stripped, is in some category of s's mapping |
| BlockTables.AddOwnerStep | main.py:366-369 | one block adds the source to that block's owner set |
| BlockTables.AddCategoryBlocks | main.py:365-369 | the loop over one category's blocks equals `AddKeys` |
| BlockTables.AddSourceBlocks | main.py:364-369 | the loop over one mapping equals `AddCategories` |
| BlockTables.GetBlockSourcesMap | main.py:350-372 | the build loop equals `BlockSources` |
| BlockTables.SortBlocksByExclusivity | main.py:374-399 | the result is a permutation of the blocks |
| BlockTables.SortBlocksFacts | main.py:383-399 | exclusive blocks come first; block numbers are non-increasing within each class; blocks with equal keys keep their order |
| BlockSelection.FindExact | main.py:319-323 | the blocks of the first matching mapping key, or none |
| BlockSelection.AddNewBlocks | main.py:341-343 | appends the blocks not yet present |
| BlockSelection.AddMatchingBlocks | main.py:339-343 | appends the blocks of every mapping key that matches the upgrade |
| BlockSelection.AddUpgradeBlocks | main.py:332-343 | appends upgrade blocks, skipping blocked upgrades |
| BlockSelection.AddNewFacts | main.py:341-343 | the old list is a prefix, appended blocks are distinct and new, and membership is old plus added |
| BlockSelection.AddMatchingFacts | main.py:339-343 | prefix kept, fresh appends, and membership is old or listed under a matching key |
| BlockSelection.AddUpgradesFacts | main.py:332-343 | prefix kept, fresh appends, and membership is old or listed by an unblocked upgrade |
| BlockSelection.AllowedBlocks | main.py:311-345 | the method equals the function `Allowed` |
| BlockSelection.AllowedFacts | main.py:311-345 | a category ending in a block gives `[b]`; otherwise exact blocks come first and upgrade blocks are appended only if new; the list holds exactly those blocks; None instead of an empty list |
| BlockSelection.ShortsideGetsNoLateral | main.py:333-336 | a short-side category gets no block only through a LATERAL upgrade |
| BlockSelection.AllowedWithoutUpgrades | main.py:319-326 | without upgrades, the blocks of the first matching key, None when no key matches |
| SheetRows.ColumnOf | main.py:213-215 | the last column whose stripped header is the name, or -1 |
| SheetRows.CollectRows | main.py:218-254 | the row loop keeps each parsed row, in order, with its 2-based sheet row number |
| SheetRows.CollectFromRows | main.py:218-254 | an item is collected iff some data row parses to it |
| SheetRows.OrderOf | main.py:219-231 | a row gives an order iff its order number is not blank; the order number, event name and category are the stripped cells and the source is the normalised stripped source cell; qty is the parsed number, or 1 when it does not parse; seating is the stripped cell, or "Up To 2 Together" when blank |
| SheetRows.OrdersFromRows | main.py:217-232 | the orders are exactly those of data rows with an order number |
| SheetRows.ParseOrders | main.py:210-232 | the method equals `Orders` |
| SheetRows.TicketOf | main.py:242-254 | a row gives a ticket iff game, block, row and seat are not blank and row and seat parse; the ticket carries its sheet row, column 10 as marker, the stripped game and block and the parsed row and seat |
| SheetRows.TicketParserStamps | main.py:241-254 | a ticket's `idx` is the row number it was read with |
| SheetRows.CollectIndexed | main.py:241-254 | collected `idx` values are strictly increasing and each ticket is its own row's |
| SheetRows.TicketsInRowOrder | main.py:241-254 | ticket `idx` values are strictly increasing and each ticket comes from its own data row |
| SheetRows.TicketsFromRows | main.py:240-255 | a ticket is collected iff some data row parses to it |
| SheetRows.ParseTickets | main.py:234-255 | the method equals `Tickets` |

## Left out

- Sheet I/O, network and authentication, `run_once_sync` orchestration, the web routes, threads, progress and log files, and the translation lookup `t`: side effects outside the allocation rules.
- Logging in `choose_tickets_for_order`. Reason strings are the `Reason` datatype. The NOT_AVAILABLE failure counts are its fields, and the Hebrew and English texts are not modelled.
- `load_mapping_for_source`, `get_category_hierarchy` and the three caches. Mappings, the hierarchy and the loaded mappings per source are parameters.
- JSON values: mapping blocks are strings. Only the input of `expand_hierarchical_mapping` may hold null; other mappings are lists of strings.
- `int(float(x))` is an abstract parameter `parseNum`. Floating-point conversion is not modelled.
- `.upper()`, `.lower()`, `\d`, `\b` are ASCII only. Whitespace (`strip()` and `\s`) is the full set `str.isspace` accepts.
  - "CATEGORÍA 3" and "CATEGORÍA 4" are found only when the input already holds the upper-case "Í".
  - `categor[íi]a` matches only the lower-case "í" the input already holds.
- `norm` and `_norm_str` take strings: the `str(x or "")` conversion, which turns None into "", is not modelled because every input is already a string.
- `classify_together` receives records with integer row and seat. The `int(...)` conversion of the dictionary fields is the callers' concern.
- SheetRows.ParseOrders: returns None on an empty sheet where Python raises IndexError on `values[0]`.
- SheetRows.ParseTickets: returns None on an empty sheet where Python raises IndexError on `values[0]`.
- Allocator.ChooseTicketsForOrder: the outcome `KeyError` stands for the exception raised when `rules["sources"]` or a `rules["pairing_priority"][...]` entry is missing. The exception is not propagated further.
- SeatClassifier.ClassifySaturated: states diagonal saturation modulo duplicate seats. A record whose key a later duplicate replaced in `seat_map` is never probed.
- SeatClassifier.ClassifyPaired: states that every SCH and SCH-k record has a partner, and ClassifyEven that each such tag sits on an even number of records; that the partner relation is a perfect matching (disjoint pairs) is not stated, because the final tags do not record which two records were tagged together.
