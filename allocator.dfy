/** `choose_tickets_for_order` (engine/allocator.py:97-302) as a whole: build the
    allowed set, filter the pool, sort and tag the candidates, then run the
    single-ticket ladder or the multi-ticket window search. The `rules`
    dictionary can raise `KeyError` on the multi path; that is an `Outcome`. */
module Allocator {
  import opened Wrappers
  import opened Text
  import opened Sorting
  import opened SeatClassifier
  import opened AllocatorHelpers
  import opened AllocatorRecords
  import opened CandidateFilter
  import opened SinglePath
  import opened MultiPath

  /** `recs` of line 171: what the classifier sees of each candidate. */
  function RecordsOf(cands: seq<Ticket>): (rs: seq<SeatRecord>)
    ensures |rs| == |cands|
  {
    seq(|cands|, i requires 0 <= i < |cands| => SeatRecord(cands[i].game, cands[i].block, cands[i].row, cands[i].seat))
  }

  /** `rules["sources"].get(source, {}).get("allow_sch", False)` once `"sources"` is present. */
  function AllowSch(source: string, sources: map<string, bool>): bool {
    source in sources && sources[source]
  }

  /** `rules.get("single_rule", {}).get("strict_single_only", True)`. */
  function StrictSingle(rules: Rules): bool {
    match rules.strictSingleOnly
    case Some(b) => b
    case None => true
  }

  /** The profile name lines 204-209 look up under `rules["pairing_priority"]`. */
  function ProfileKey(source: string, allowSch: bool, profiles: set<string>): (key: string)
    ensures key in {"goldenseat_priority", "when_allow_sch", "when_disallow_sch"}
  {
    if Lower(source) == "goldenseat" && "goldenseat_priority" in profiles then "goldenseat_priority"
    else if allowSch then "when_allow_sch"
    else "when_disallow_sch"
  }

  /** The candidates in the order of line 167. */
  function SortedCandidatesOf(order: Order, tickets: seq<Ticket>, allowedBlocks: seq<string>): seq<Ticket> {
    SortByKey(Candidates(order, tickets, AllowedSet(allowedBlocks, order.source)),
              CandidateKey(Priority(allowedBlocks, order.source)))
  }

  /** Does the order take the single-ticket path (line 174)? */
  predicate SinglePathOrder(order: Order) {
    order.qty == 1 || UpToOrDefault(order.seating) == 1
  }

  /** Lines 176-302 on the sorted candidates and their tags. */
  function Route(order: Order, sorted: seq<Ticket>, tags: seq<Tag>, allowedBlocks: seq<string>, rules: Rules): Outcome
    requires |tags| == |sorted|
  {
    if SinglePathOrder(order) then
      Returned(SingleDecision(sorted, tags, IsSpecificBlockOrder(allowedBlocks), StrictSingle(rules)))
    else match rules.sources
      case None => KeyError("sources")
      case Some(sources) =>
        var allowSch := AllowSch(order.source, sources);
        match rules.pairingPriority
        case None => KeyError("pairing_priority")
        case Some(profiles) =>
          var key := ProfileKey(order.source, allowSch, profiles);
          if key !in profiles then KeyError(key)
          else Returned(MultiDecision(sorted, tags, order.qty, allowSch))
  }

  /** Lines 170-302: tag the sorted candidates, then route them. */
  function Dispatch(order: Order, sorted: seq<Ticket>, allowedBlocks: seq<string>, rules: Rules): Outcome {
    Route(order, sorted, Classify(KeysOf(RecordsOf(sorted))), allowedBlocks, rules)
  }

  /** `choose_tickets_for_order`. */
  function Choose(order: Order, tickets: seq<Ticket>, allowedBlocks: seq<string>, rules: Rules): Outcome {
    var allowed := AllowedSet(allowedBlocks, order.source);
    var vs := Verdicts(order, tickets, allowed);
    if allowedBlocks == [] then
      Returned(AssignmentResult(ChangedCategoryNotInMapping, [], NoBlocksForCategory))
    else if Candidates(order, tickets, allowed) == [] then
      Returned(AssignmentResult(NotAvailable, [], NoStock(CountOf(vs, GameMismatch, |tickets|),
        CountOf(vs, BlockMismatch, |tickets|), CountOf(vs, AlreadyAssigned, |tickets|))))
    else
      Dispatch(order, SortedCandidatesOf(order, tickets, allowedBlocks), allowedBlocks, rules)
  }

  /** Lines 97-302. */
  method ChooseTicketsForOrder(order: Order, tickets: seq<Ticket>, allowedBlocks: seq<string>, rules: Rules)
    returns (out: Outcome)
    ensures out == Choose(order, tickets, allowedBlocks, rules)
  {
    var allowed := BuildAllowedSet(allowedBlocks, order.source);
    var specific := IsSpecificBlockOrder(allowedBlocks);
    var candidates, gameFail, blockFail, alreadyAssigned := FilterTickets(order, tickets, allowed);
    if allowedBlocks == [] {
      return Returned(AssignmentResult(ChangedCategoryNotInMapping, [], NoBlocksForCategory));
    }
    if candidates == [] {
      return Returned(AssignmentResult(NotAvailable, [], NoStock(gameFail, blockFail, alreadyAssigned)));
    }
    var priority := BuildBlockPriority(allowedBlocks, order.source);
    candidates := SortByKey(candidates, CandidateKey(priority));
    out := DispatchSorted(order, candidates, specific, allowedBlocks, rules);
  }

  /** Lines 170-302 once the candidates are sorted. */
  method DispatchSorted(order: Order, candidates: seq<Ticket>, specific: bool, allowedBlocks: seq<string>, rules: Rules)
    returns (out: Outcome)
    requires specific == IsSpecificBlockOrder(allowedBlocks)
    ensures out == Dispatch(order, candidates, allowedBlocks, rules)
  {
    var recs := RecordsOf(candidates);
    var tags := ClassifyTogether(recs);
    var upTo := UpToOrDefault(order.seating);
    if order.qty == 1 || upTo == 1 {
      return Returned(SingleDecision(candidates, tags, specific, StrictSingle(rules)));
    }
    if rules.sources.None? {
      return KeyError("sources");
    }
    var allowSch := AllowSch(order.source, rules.sources.value);
    if rules.pairingPriority.None? {
      return KeyError("pairing_priority");
    }
    var key := ProfileKey(order.source, allowSch, rules.pairingPriority.value);
    if key !in rules.pairingPriority.value {
      return KeyError(key);
    }
    var r := ChooseWindow(candidates, tags, order.qty, allowSch);
    return Returned(r);
  }

  // ---------------------------------------------------------------------------
  // Properties

  /** The sorted candidates are the filtered candidates, reordered. */
  lemma SortedCandidatesFacts(order: Order, tickets: seq<Ticket>, allowedBlocks: seq<string>)
    ensures var allowed := AllowedSet(allowedBlocks, order.source);
      multiset(SortedCandidatesOf(order, tickets, allowedBlocks)) == multiset(Candidates(order, tickets, allowed))
      && forall t :: t in SortedCandidatesOf(order, tickets, allowedBlocks) ==>
           t in tickets && VerdictOf(order, t, allowed) == Candidate
  {
    var allowed := AllowedSet(allowedBlocks, order.source);
    var sorted := SortedCandidatesOf(order, tickets, allowedBlocks);
    forall t | t in sorted ensures t in tickets && VerdictOf(order, t, allowed) == Candidate {
      assert t in multiset(sorted);
      CandidatesExact(order, tickets, allowed, t);
    }
  }

  /** What the routing returns on either path, whatever the tags. */
  lemma RouteFacts(order: Order, sorted: seq<Ticket>, tags: seq<Tag>, allowedBlocks: seq<string>, rules: Rules)
    requires |tags| == |sorted|
    ensures match Route(order, sorted, tags, allowedBlocks, rules)
      case Returned(r) =>
        r.status != NeedsApproval && r.status != ChangedCategoryNotInMapping && !r.reason.NoStock?
        && (r.status != Assigned ==> r.tickets == [])
        && (r.status == Assigned ==>
              (forall t :: t in r.tickets ==> t in sorted)
              && |r.tickets| == if SinglePathOrder(order) then 1 else order.qty)
      case KeyError(key) => !SinglePathOrder(order)
  {
    if SinglePathOrder(order) {
      SingleShape(sorted, tags, IsSpecificBlockOrder(allowedBlocks), StrictSingle(rules));
    } else if rules.sources.Some? && rules.pairingPriority.Some? {
      var allowSch := AllowSch(order.source, rules.sources.value);
      var key := ProfileKey(order.source, allowSch, rules.pairingPriority.value);
      if key in rules.pairingPriority.value {
        MultiAssigned(sorted, tags, order.qty, allowSch);
        assert Route(order, sorted, tags, allowedBlocks, rules) == Returned(MultiDecision(sorted, tags, order.qty, allowSch));
      }
    }
  }

  /** The outcomes of `choose_tickets_for_order`: an empty allowed list is a
      category not in the mapping; an empty candidate list is "no stock" with
      failure counts that add up to the pool; `NEEDS_APPROVAL` never occurs;
      only an assignment carries tickets, and those are tickets of the pool that
      pass the filter (`CandidateMeaning`: game and block match, seat free); a `KeyError` arises only on the multi path. */
  lemma ChooseFacts(order: Order, tickets: seq<Ticket>, allowedBlocks: seq<string>, rules: Rules)
    ensures var allowed := AllowedSet(allowedBlocks, order.source);
      match Choose(order, tickets, allowedBlocks, rules)
      case Returned(r) =>
        (r.status == ChangedCategoryNotInMapping <==> allowedBlocks == [])
        && r.status != NeedsApproval
        && (r.status != Assigned ==> r.tickets == [])
        && (r.reason.NoStock? ==>
              r.reason.gameFail + r.reason.blockFail + r.reason.alreadyAssigned == |tickets|)
        && (r.status == Assigned ==>
              |r.tickets| == (if SinglePathOrder(order) then 1 else order.qty)
              && forall t :: t in r.tickets ==> t in tickets && VerdictOf(order, t, allowed) == Candidate)
      case KeyError(key) =>
        allowedBlocks != [] && Candidates(order, tickets, allowed) != [] && !SinglePathOrder(order)
  {
    var allowed := AllowedSet(allowedBlocks, order.source);
    FilterCountsAddUp(order, tickets, allowed);
    if allowedBlocks != [] && Candidates(order, tickets, allowed) != [] {
      var sorted := SortedCandidatesOf(order, tickets, allowedBlocks);
      RouteFacts(order, sorted, Classify(KeysOf(RecordsOf(sorted))), allowedBlocks, rules);
      SortedCandidatesFacts(order, tickets, allowedBlocks);
    }
  }

  /** The pairing-priority profile is looked up but never used: any two rule sets
      that agree on `single_rule` and `sources`, and both hold the profile the
      order looks up, give the same outcome. */
  lemma ProfileIrrelevant(order: Order, tickets: seq<Ticket>, allowedBlocks: seq<string>, rules: Rules,
                          profiles: set<string>)
    requires rules.sources.Some? && rules.pairingPriority.Some?
    requires ProfileKey(order.source, AllowSch(order.source, rules.sources.value), rules.pairingPriority.value)
             in rules.pairingPriority.value
    requires ProfileKey(order.source, AllowSch(order.source, rules.sources.value), profiles) in profiles
    ensures Choose(order, tickets, allowedBlocks, rules)
         == Choose(order, tickets, allowedBlocks, Rules(rules.strictSingleOnly, rules.sources, Some(profiles)))
  {
    var sorted := SortedCandidatesOf(order, tickets, allowedBlocks);
    RouteProfileIrrelevant(order, sorted, Classify(KeysOf(RecordsOf(sorted))), allowedBlocks, rules, profiles);
  }

  lemma RouteProfileIrrelevant(order: Order, sorted: seq<Ticket>, tags: seq<Tag>, allowedBlocks: seq<string>,
                               rules: Rules, profiles: set<string>)
    requires |tags| == |sorted| && rules.sources.Some? && rules.pairingPriority.Some?
    requires ProfileKey(order.source, AllowSch(order.source, rules.sources.value), rules.pairingPriority.value)
             in rules.pairingPriority.value
    requires ProfileKey(order.source, AllowSch(order.source, rules.sources.value), profiles) in profiles
    ensures Route(order, sorted, tags, allowedBlocks, rules)
         == Route(order, sorted, tags, allowedBlocks, Rules(rules.strictSingleOnly, rules.sources, Some(profiles)))
  {
  }

  /** A `SINGLE`-path order is answered with at most one ticket even when it asks
      for more: "Up To 1" seating sends any quantity down that path. */
  lemma SinglePathIgnoresQuantity(order: Order, tickets: seq<Ticket>, allowedBlocks: seq<string>, rules: Rules)
    requires UpToOrDefault(order.seating) == 1
    ensures Choose(order, tickets, allowedBlocks, rules).Returned?
    ensures var r := Choose(order, tickets, allowedBlocks, rules).result;
      r.status == Assigned ==> |r.tickets| == 1
  {
    ChooseFacts(order, tickets, allowedBlocks, rules);
  }
}
