/** The single-ticket ladder of `choose_tickets_for_order` (engine/allocator.py:176-198):
    a lone `SINGLE` first, then a seat split from a `PAIR` (in a specific-block
    order, or when the strict rule is off), then a seat from an `SCH` pair. */
module SinglePath {
  import opened Wrappers
  import opened SeatClassifier
  import opened AllocatorRecords

  /** The three tag tests of lines 177, 184/191 and 195. */
  datatype Kind = SingleKind | PairKind | SchKind

  predicate HasKind(t: Tag, k: Kind) {
    match k
    case SingleKind => t.Single?
    case PairKind => t.Pair?
    case SchKind => IsSch(t)
  }

  /** The index of the first tag of kind `k`, the head of the list comprehension. */
  function FirstOfKind(tags: seq<Tag>, k: Kind): (r: Option<nat>)
    ensures r.Some? ==> r.value < |tags| && HasKind(tags[r.value], k)
    ensures r.Some? ==> forall i :: 0 <= i < r.value ==> !HasKind(tags[i], k)
    ensures r.None? ==> forall i :: 0 <= i < |tags| ==> !HasKind(tags[i], k)
  {
    if tags == [] then None
    else if HasKind(tags[0], k) then Some(0)
    else match FirstOfKind(tags[1..], k)
      case Some(j) => Some(j + 1)
      case None => None
  }

  /** Lines 176-198, once the candidates are sorted and tagged; `strict` is
      `strict_single_only` (true when the rule is absent). */
  function SingleDecision(cands: seq<Ticket>, tags: seq<Tag>, specific: bool, strict: bool): AssignmentResult
    requires |tags| == |cands|
  {
    match FirstOfKind(tags, SingleKind)
    case Some(i) => AssignmentResult(Assigned, [cands[i]], SingleOk)
    case None =>
      if specific && FirstOfKind(tags, PairKind).Some? then
        AssignmentResult(Assigned, [cands[FirstOfKind(tags, PairKind).value]], SingleFromPairSpecificBlock)
      else if strict then AssignmentResult(NotAvailable, [], SingleRequiredNoSingleAvailable)
      else match FirstOfKind(tags, PairKind)
        case Some(i) => AssignmentResult(Assigned, [cands[i]], SingleFromPair)
        case None =>
          match FirstOfKind(tags, SchKind)
          case Some(i) => AssignmentResult(Assigned, [cands[i]], SingleFromSch)
          case None => AssignmentResult(NotAvailable, [], SingleNoCandidates)
  }

  /** An assignment on this path is one candidate ticket; any other outcome carries none. */
  lemma SingleShape(cands: seq<Ticket>, tags: seq<Tag>, specific: bool, strict: bool)
    requires |tags| == |cands|
    ensures var r := SingleDecision(cands, tags, specific, strict);
      (r.status == Assigned ==> exists i :: 0 <= i < |cands| && r.tickets == [cands[i]])
      && (r.status != Assigned ==> r.tickets == [] && r.status == NotAvailable)
      && (r.reason in {SingleOk, SingleFromPairSpecificBlock, SingleRequiredNoSingleAvailable,
                       SingleFromPair, SingleFromSch, SingleNoCandidates})
  {
  }

  /** When some candidate is tagged `SINGLE`, the first such candidate is the one assigned. */
  lemma SinglePreferred(cands: seq<Ticket>, tags: seq<Tag>, specific: bool, strict: bool, j: nat)
    requires |tags| == |cands| && j < |tags| && tags[j].Single?
    ensures var r := SingleDecision(cands, tags, specific, strict);
      r.status == Assigned && r.reason == SingleOk
      && (exists i :: 0 <= i <= j && tags[i].Single? && r.tickets == [cands[i]]
            && forall i' :: 0 <= i' < i ==> !tags[i'].Single?)
  {
    assert HasKind(tags[j], SingleKind);
  }

  /** A seat is split from a `PAIR` only when there is no `SINGLE`, and only for a
      specific-block order or with the strict rule off; it is the first `PAIR`. */
  lemma PairOnlyWhenAllowed(cands: seq<Ticket>, tags: seq<Tag>, specific: bool, strict: bool)
    requires |tags| == |cands|
    ensures var r := SingleDecision(cands, tags, specific, strict);
      (r.reason == SingleFromPairSpecificBlock || r.reason == SingleFromPair) ==>
        (specific || !strict) && (forall i :: 0 <= i < |tags| ==> !tags[i].Single?)
        && (exists i :: 0 <= i < |tags| && tags[i].Pair? && r.tickets == [cands[i]]
              && forall i' :: 0 <= i' < i ==> !tags[i'].Pair?)
  {
    var r := SingleDecision(cands, tags, specific, strict);
    if r.reason == SingleFromPairSpecificBlock || r.reason == SingleFromPair {
      var i := FirstOfKind(tags, PairKind).value;
      assert tags[i].Pair? && r.tickets == [cands[i]];
    }
  }

  /** A seat from an `SCH` pair is the last resort: taken exactly when there is no
      `SINGLE`, no `PAIR`, the strict rule is off and some `SCH` seat exists, and
      then it is the first `SCH` seat. */
  lemma SchLastResort(cands: seq<Ticket>, tags: seq<Tag>, specific: bool, strict: bool)
    requires |tags| == |cands|
    ensures var r := SingleDecision(cands, tags, specific, strict);
      r.reason == SingleFromSch <==>
        !strict && (forall i :: 0 <= i < |tags| ==> !tags[i].Single? && !tags[i].Pair?)
        && exists i :: 0 <= i < |tags| && IsSch(tags[i])
    ensures var r := SingleDecision(cands, tags, specific, strict);
      r.reason == SingleFromSch ==>
        r.status == Assigned
        && exists i :: (0 <= i < |tags| && IsSch(tags[i]) && r.tickets == [cands[i]]
                        && forall i' :: 0 <= i' < i ==> !IsSch(tags[i']))
  {
    var r := SingleDecision(cands, tags, specific, strict);
    if r.reason == SingleFromSch {
      var i := FirstOfKind(tags, SchKind).value;
      assert IsSch(tags[i]) && r.tickets == [cands[i]];
    } else if !strict && (forall i :: 0 <= i < |tags| ==> !tags[i].Single? && !tags[i].Pair?) {
      if i :| 0 <= i < |tags| && IsSch(tags[i]) {
        assert HasKind(tags[i], SchKind);
      }
    }
  }

  /** A seat of an `"<N> together"` run is never handed out on this path. */
  lemma NeverFromRun(cands: seq<Ticket>, tags: seq<Tag>, specific: bool, strict: bool)
    requires |tags| == |cands|
    ensures var r := SingleDecision(cands, tags, specific, strict);
      r.status == Assigned ==> exists i :: 0 <= i < |tags| && !tags[i].Together? && r.tickets == [cands[i]]
  {
    var r := SingleDecision(cands, tags, specific, strict);
    if r.status == Assigned {
      match FirstOfKind(tags, SingleKind)
      case Some(i) =>
      case None =>
        if specific && FirstOfKind(tags, PairKind).Some? {
        } else if !strict && FirstOfKind(tags, PairKind).Some? {
        } else {
          var i := FirstOfKind(tags, SchKind).value;
          assert IsSch(tags[i]);
        }
    }
  }

  /** Nothing is assigned exactly when no rung of the ladder applies. */
  lemma SingleUnavailable(cands: seq<Ticket>, tags: seq<Tag>, specific: bool, strict: bool)
    requires |tags| == |cands|
    ensures SingleDecision(cands, tags, specific, strict).status == NotAvailable <==>
      (forall i :: 0 <= i < |tags| ==> !tags[i].Single?)
      && (specific ==> forall i :: 0 <= i < |tags| ==> !tags[i].Pair?)
      && (strict || forall i :: 0 <= i < |tags| ==> !tags[i].Pair? && !IsSch(tags[i]))
  {
    var s := FirstOfKind(tags, SingleKind);
    var p := FirstOfKind(tags, PairKind);
    var c := FirstOfKind(tags, SchKind);
    if s.Some? {
      assert tags[s.value].Single?;
    }
    if p.Some? {
      assert tags[p.value].Pair?;
    }
    if c.Some? {
      assert IsSch(tags[c.value]);
    }
  }
}
