/** `classify_together` (engine/seat_classifier.py): tag every ticket of a list
    with SINGLE, PAIR, "<N> together", SCH-<gaps> or SCH, in three passes over a
    result table that later passes only change where it still says SINGLE. */
module SeatClassifier {
  import opened Wrappers
  import opened Text
  import opened Sorting

  /** The four fields the classifier reads from a ticket record. */
  datatype SeatRecord = SeatRecord(game: string, block: string, row: int, seat: int)

  /** A record after `_norm_str` on game and block: the key of `seat_map`. */
  datatype SeatKey = SeatKey(game: string, block: string, row: int, seat: int)

  /** The key of `row_groups`: one row of one block of one game. */
  datatype RowKey = RowKey(game: string, block: string, row: int)

  /** An entry `(i, s)` of a row group: record index and seat number. */
  datatype Slot = Slot(idx: nat, seat: int)

  /** The tag strings: "SINGLE", "PAIR", "<n> together", "SCH-<gaps>", "SCH". */
  datatype Tag = Single | Pair | Together(n: nat) | SchGap(gaps: nat) | Sch

  predicate WellFormed(t: Tag) {
    match t
    case Together(n) => n >= 3
    case SchGap(k) => 1 <= k <= 19
    case _ => true
  }

  /** "SCH" or "SCH-<k>". */
  predicate IsSch(t: Tag) { t.SchGap? || t.Sch? }

  function KeyOf(r: SeatRecord): SeatKey {
    SeatKey(Norm(r.game), Norm(r.block), r.row, r.seat)
  }

  function KeysOf(rs: seq<SeatRecord>): (ks: seq<SeatKey>)
    ensures |ks| == |rs| && forall i :: 0 <= i < |rs| ==> ks[i] == KeyOf(rs[i])
  {
    seq(|rs|, i requires 0 <= i < |rs| => KeyOf(rs[i]))
  }

  function RowOf(k: SeatKey): RowKey { RowKey(k.game, k.block, k.row) }

  /** Python's `s % 2 == 0`; for divisor 2 its floored remainder agrees with Dafny's. */
  predicate IsEven(s: int) { s % 2 == 0 }

  function BySeat(sl: Slot): (int, int) { (sl.seat, 0) }

  // ---------------------------------------------------------------------------
  // Specification of the tables built by the first loop

  /** `row_groups[g]` once the first `n` records are in: their slots in index order. */
  function Members(keys: seq<SeatKey>, g: RowKey, n: nat): seq<Slot>
    requires n <= |keys|
  {
    if n == 0 then []
    else Members(keys, g, n - 1) + (if RowOf(keys[n - 1]) == g then [Slot(n - 1, keys[n - 1].seat)] else [])
  }

  /** The keys of `row_groups` in insertion (first appearance) order. */
  function RowOrder(keys: seq<SeatKey>, n: nat): seq<RowKey>
    requires n <= |keys|
  {
    if n == 0 then []
    else if RowOf(keys[n - 1]) in RowOrder(keys, n - 1) then RowOrder(keys, n - 1)
    else RowOrder(keys, n - 1) + [RowOf(keys[n - 1])]
  }

  /** `seat_map` once the first `n` records are in: a later duplicate overwrites. */
  function SeatIndex(keys: seq<SeatKey>, n: nat): map<SeatKey, nat>
    requires n <= |keys|
  {
    if n == 0 then map[] else SeatIndex(keys, n - 1)[keys[n - 1] := n - 1]
  }

  /** `[(i, s) for i, s in group if s % 2 == 0]` (or `!= 0` when `even` is false). */
  function WithParity(slots: seq<Slot>, even: bool): seq<Slot> {
    if slots == [] then []
    else WithParity(slots[..|slots| - 1], even)
         + (if IsEven(slots[|slots| - 1].seat) == even then [slots[|slots| - 1]] else [])
  }

  /** The slots of the records among the first `n` that lie in row `g` with the given parity. */
  function ParitySlots(keys: seq<SeatKey>, g: RowKey, even: bool, n: nat): seq<Slot>
    requires n <= |keys|
  {
    if n == 0 then []
    else ParitySlots(keys, g, even, n - 1)
         + (if RowOf(keys[n - 1]) == g && IsEven(keys[n - 1].seat) == even
            then [Slot(n - 1, keys[n - 1].seat)] else [])
  }

  /** The even (or odd) list of row `g`, sorted by seat as passes 1 and 2 scan it. */
  function ParityList(keys: seq<SeatKey>, g: RowKey, even: bool): seq<Slot> {
    SortByKey(ParitySlots(keys, g, even, |keys|), BySeat)
  }

  lemma {:induction false} SeatIndexFacts(keys: seq<SeatKey>, n: nat)
    requires n <= |keys|
    ensures forall k :: k in SeatIndex(keys, n) ==> SeatIndex(keys, n)[k] < n && keys[SeatIndex(keys, n)[k]] == k
    ensures forall i :: 0 <= i < n ==> keys[i] in SeatIndex(keys, n)
  {
    if n > 0 {
      SeatIndexFacts(keys, n - 1);
    }
  }

  lemma {:induction false} RowOrderFacts(keys: seq<SeatKey>, n: nat)
    requires n <= |keys|
    ensures forall p, q :: 0 <= p < q < |RowOrder(keys, n)| ==> RowOrder(keys, n)[p] != RowOrder(keys, n)[q]
    ensures forall g :: g in RowOrder(keys, n) <==> exists i :: 0 <= i < n && RowOf(keys[i]) == g
  {
    if n > 0 {
      RowOrderFacts(keys, n - 1);
      forall g | g in RowOrder(keys, n) ensures exists i :: 0 <= i < n && RowOf(keys[i]) == g {
        if g !in RowOrder(keys, n - 1) {
          assert RowOf(keys[n - 1]) == g;
        }
      }
    }
  }

  lemma {:induction false} WithParityConcat(a: seq<Slot>, b: seq<Slot>, even: bool)
    ensures WithParity(a + b, even) == WithParity(a, even) + WithParity(b, even)
    decreases |b|
  {
    if b == [] {
      assert a + b == a;
    } else {
      var b' := b[..|b| - 1];
      assert (a + b)[..|a + b| - 1] == a + b';
      assert (a + b)[|a + b| - 1] == b[|b| - 1];
      WithParityConcat(a, b', even);
    }
  }

  /** Filtering a row group by parity gives that row's parity slots. */
  lemma {:induction false} MembersWithParity(keys: seq<SeatKey>, g: RowKey, even: bool, n: nat)
    requires n <= |keys|
    ensures WithParity(Members(keys, g, n), even) == ParitySlots(keys, g, even, n)
  {
    if n > 0 {
      MembersWithParity(keys, g, even, n - 1);
      var tail := if RowOf(keys[n - 1]) == g then [Slot(n - 1, keys[n - 1].seat)] else [];
      WithParityConcat(Members(keys, g, n - 1), tail, even);
      if tail != [] {
        assert tail[..0] == [];
      }
    }
  }

  lemma ParitySlotsFacts(keys: seq<SeatKey>, g: RowKey, even: bool, n: nat)
    requires n <= |keys|
    ensures forall p :: 0 <= p < |ParitySlots(keys, g, even, n)| ==>
      var sl := ParitySlots(keys, g, even, n)[p];
      sl.idx < n && RowOf(keys[sl.idx]) == g && IsEven(keys[sl.idx].seat) == even && sl.seat == keys[sl.idx].seat
    ensures forall p, q :: 0 <= p < q < |ParitySlots(keys, g, even, n)| ==>
      ParitySlots(keys, g, even, n)[p].idx < ParitySlots(keys, g, even, n)[q].idx
    ensures forall i :: 0 <= i < n && RowOf(keys[i]) == g && IsEven(keys[i].seat) == even ==>
      Slot(i, keys[i].seat) in ParitySlots(keys, g, even, n)
  {
    ParitySlotsMembers(keys, g, even, n);
    ParitySlotsComplete(keys, g, even, n);
  }

  lemma {:induction false} ParitySlotsMembers(keys: seq<SeatKey>, g: RowKey, even: bool, n: nat)
    requires n <= |keys|
    ensures forall p :: 0 <= p < |ParitySlots(keys, g, even, n)| ==>
      var sl := ParitySlots(keys, g, even, n)[p];
      sl.idx < n && RowOf(keys[sl.idx]) == g && IsEven(keys[sl.idx].seat) == even && sl.seat == keys[sl.idx].seat
    ensures forall p, q :: 0 <= p < q < |ParitySlots(keys, g, even, n)| ==>
      ParitySlots(keys, g, even, n)[p].idx < ParitySlots(keys, g, even, n)[q].idx
  {
    if n > 0 {
      var prev := ParitySlots(keys, g, even, n - 1);
      var cur := ParitySlots(keys, g, even, n);
      ParitySlotsMembers(keys, g, even, n - 1);
      assert forall p :: 0 <= p < |prev| ==> cur[p] == prev[p];
      if |cur| > |prev| {
        assert cur[|prev|] == Slot(n - 1, keys[n - 1].seat);
      }
    }
  }

  lemma {:induction false} ParitySlotsComplete(keys: seq<SeatKey>, g: RowKey, even: bool, n: nat)
    requires n <= |keys|
    ensures forall i :: 0 <= i < n && RowOf(keys[i]) == g && IsEven(keys[i].seat) == even ==>
      Slot(i, keys[i].seat) in ParitySlots(keys, g, even, n)
  {
    if n > 0 {
      var prev := ParitySlots(keys, g, even, n - 1);
      var cur := ParitySlots(keys, g, even, n);
      ParitySlotsComplete(keys, g, even, n - 1);
      assert forall x :: x in prev ==> x in cur;
    }
  }

  predicate DistinctIdx(lst: seq<Slot>) {
    forall p, q :: 0 <= p < q < |lst| ==> lst[p].idx != lst[q].idx
  }

  predicate SlotsOf(keys: seq<SeatKey>, lst: seq<Slot>) {
    forall p :: 0 <= p < |lst| ==> lst[p].idx < |keys| && lst[p].seat == keys[lst[p].idx].seat
  }

  predicate SortedBySeat(lst: seq<Slot>) {
    forall p, q :: 0 <= p < q < |lst| ==> lst[p].seat <= lst[q].seat
  }

  /** What the classifier relies on about each parity list: sorted by seat,
      each record at most once, and exactly the records of that row and parity. */
  lemma ParityListFacts(keys: seq<SeatKey>, g: RowKey, even: bool)
    ensures var L := ParityList(keys, g, even);
      SortedBySeat(L) && DistinctIdx(L) && SlotsOf(keys, L)
      && (forall p :: 0 <= p < |L| ==> RowOf(keys[L[p].idx]) == g && IsEven(keys[L[p].idx].seat) == even)
      && (forall i :: 0 <= i < |keys| && RowOf(keys[i]) == g && IsEven(keys[i].seat) == even ==> InSlots(L, i))
  {
    ParityListSorted(keys, g, even);
    ParityListMembers(keys, g, even);
    ParityListDistinct(keys, g, even);
    ParityListComplete(keys, g, even);
  }

  lemma ParityListSorted(keys: seq<SeatKey>, g: RowKey, even: bool)
    ensures SortedBySeat(ParityList(keys, g, even))
  {
    SortIsSorted(ParitySlots(keys, g, even, |keys|), BySeat);
  }

  lemma ParityListDistinct(keys: seq<SeatKey>, g: RowKey, even: bool)
    ensures DistinctIdx(ParityList(keys, g, even))
  {
    var src := ParitySlots(keys, g, even, |keys|);
    var L := ParityList(keys, g, even);
    ParitySlotsFacts(keys, g, even, |keys|);
    ParityListMembers(keys, g, even);
    assert NoDuplicates(src);
    SortKeepsDistinct(src, BySeat);
    forall p, q | 0 <= p < q < |L| ensures L[p].idx != L[q].idx {
      assert L[p] != L[q];
    }
  }

  lemma ParityListComplete(keys: seq<SeatKey>, g: RowKey, even: bool)
    ensures forall i :: (0 <= i < |keys| && RowOf(keys[i]) == g && IsEven(keys[i].seat) == even
      ==> InSlots(ParityList(keys, g, even), i))
  {
    var src := ParitySlots(keys, g, even, |keys|);
    var L := ParityList(keys, g, even);
    ParitySlotsFacts(keys, g, even, |keys|);
    forall i | 0 <= i < |keys| && RowOf(keys[i]) == g && IsEven(keys[i].seat) == even
      ensures InSlots(L, i)
    {
      assert Slot(i, keys[i].seat) in multiset(L);
      var p :| 0 <= p < |L| && L[p] == Slot(i, keys[i].seat);
    }
  }

  lemma ParityListMembers(keys: seq<SeatKey>, g: RowKey, even: bool)
    ensures var L := ParityList(keys, g, even);
      forall p :: 0 <= p < |L| ==>
        L[p].idx < |keys| && L[p].seat == keys[L[p].idx].seat
        && RowOf(keys[L[p].idx]) == g && IsEven(keys[L[p].idx].seat) == even
  {
    var src := ParitySlots(keys, g, even, |keys|);
    var L := ParityList(keys, g, even);
    ParitySlotsFacts(keys, g, even, |keys|);
    forall p | 0 <= p < |L|
      ensures L[p].idx < |keys| && L[p].seat == keys[L[p].idx].seat
      ensures RowOf(keys[L[p].idx]) == g && IsEven(keys[L[p].idx].seat) == even
    {
      assert L[p] in multiset(src);
      var q :| 0 <= q < |src| && src[q] == L[p];
    }
  }

  // ---------------------------------------------------------------------------
  // Pass 1: maximal runs of seats two apart

  /** Positions `q` and `q + 1` of a sorted list hold seats exactly two apart. */
  predicate TwoApart(lst: seq<Slot>, q: nat)
    requires q + 1 < |lst|
  {
    lst[q + 1].seat - lst[q].seat == 2
  }

  /** How many slots before position `p` continue its run (steps of exactly 2). */
  function LeftRun(lst: seq<Slot>, p: nat): nat
    requires p < |lst|
  {
    if p > 0 && TwoApart(lst, p - 1) then 1 + LeftRun(lst, p - 1) else 0
  }

  /** How many slots after position `p` continue its run. */
  function RightRun(lst: seq<Slot>, p: nat): nat
    requires p < |lst|
    decreases |lst| - p
  {
    if p + 1 < |lst| && TwoApart(lst, p) then 1 + RightRun(lst, p + 1) else 0
  }

  /** Length of the maximal run of the sorted list through position `p`. */
  function RunLen(lst: seq<Slot>, p: nat): nat
    requires p < |lst|
  {
    LeftRun(lst, p) + RightRun(lst, p) + 1
  }

  /** The tag pass 1 gives every member of a run of the given length. */
  function RunTag(len: nat): Tag {
    if len == 2 then Pair else if len >= 3 then Together(len) else Single
  }

  lemma {:induction false} LeftRunFrom(lst: seq<Slot>, start: nat, p: nat)
    requires start <= p < |lst|
    requires start == 0 || !TwoApart(lst, start - 1)
    requires forall q :: start <= q < p ==> TwoApart(lst, q)
    ensures LeftRun(lst, p) == p - start
    decreases p - start
  {
    if p > start {
      LeftRunFrom(lst, start, p - 1);
    }
  }

  lemma {:induction false} RightRunTo(lst: seq<Slot>, p: nat, last: nat)
    requires p <= last < |lst|
    requires last + 1 == |lst| || !TwoApart(lst, last)
    requires forall q :: p <= q < last ==> TwoApart(lst, q)
    ensures RightRun(lst, p) == last - p
    decreases last - p
  {
    if p < last {
      RightRunTo(lst, p + 1, last);
    }
  }

  /** Record `i` has a slot in `lst`. */
  predicate InSlots(lst: seq<Slot>, i: nat) {
    InPrefix(lst, |lst|, i)
  }

  /** Some position before `n` holds record `i`. */
  predicate InPrefix(lst: seq<Slot>, n: nat, i: nat)
    requires n <= |lst|
  {
    exists p :: 0 <= p < n && lst[p].idx == i
  }

  /** Tags one finished run `temp` (lines 55-60 and 62-67 of the source). */
  method FlushRun(tags: seq<Tag>, temp: seq<Slot>) returns (r: seq<Tag>)
    requires forall p :: 0 <= p < |temp| ==> temp[p].idx < |tags|
    requires DistinctIdx(temp)
    ensures |r| == |tags|
    ensures forall p :: 0 <= p < |temp| && |temp| >= 2 ==> r[temp[p].idx] == RunTag(|temp|)
    ensures forall i :: 0 <= i < |tags| && (|temp| < 2 || !InSlots(temp, i)) ==> r[i] == tags[i]
  {
    r := tags;
    if |temp| == 2 {
      r := r[temp[0].idx := Pair][temp[1].idx := Pair];
    } else if |temp| >= 3 {
      var tag := Together(|temp|);
      var k := 0;
      while k < |temp|
        invariant 0 <= k <= |temp| && |r| == |tags|
        invariant forall p :: 0 <= p < k ==> r[temp[p].idx] == tag
        invariant forall i :: 0 <= i < |tags| && !InSlots(temp[..k], i) ==> r[i] == tags[i]
      {
        r := r[temp[k].idx := tag];
        k := k + 1;
        assert forall i :: InSlots(temp[..k - 1], i) ==> InSlots(temp[..k], i) by {
          forall i | InSlots(temp[..k - 1], i) ensures InSlots(temp[..k], i) {
            var p :| 0 <= p < k - 1 && temp[..k - 1][p].idx == i;
            assert temp[..k][p].idx == i;
          }
        }
      }
      assert forall i :: InSlots(temp[..k], i) ==> InSlots(temp, i) by {
        assert temp[..k] == temp;
      }
    }
  }

  /** Every position of a maximal run `lst[start..stop]` has run length `stop - start`. */
  lemma RunBounds(lst: seq<Slot>, start: nat, stop: nat)
    requires start < stop <= |lst|
    requires start == 0 || !TwoApart(lst, start - 1)
    requires stop == |lst| || !TwoApart(lst, stop - 1)
    requires forall q :: start <= q < stop - 1 ==> TwoApart(lst, q)
    ensures forall p :: start <= p < stop ==> RunLen(lst, p) == stop - start
  {
    forall p | start <= p < stop ensures RunLen(lst, p) == stop - start {
      LeftRunFrom(lst, start, p);
      RightRunTo(lst, p, stop - 1);
    }
  }

  /** The tag pass 1 leaves on position `p` of a parity list. */
  function AfterRuns(lst: seq<Slot>, tags: seq<Tag>, p: nat): Tag
    requires p < |lst| && lst[p].idx < |tags|
  {
    if RunLen(lst, p) >= 2 then RunTag(RunLen(lst, p)) else tags[lst[p].idx]
  }

  /** The scan of a parity list has settled the tags of its first `n` positions
      and changed nothing else. */
  ghost predicate ScanState(tags: seq<Tag>, lst: seq<Slot>, r: seq<Tag>, n: nat)
    requires forall p :: 0 <= p < |lst| ==> lst[p].idx < |tags|
    requires n <= |lst|
  {
    |r| == |tags|
    && (forall p {:trigger r[lst[p].idx]} :: 0 <= p < n ==> r[lst[p].idx] == AfterRuns(lst, tags, p))
    && (forall i :: 0 <= i < |tags| && !InPrefix(lst, n, i) ==> r[i] == tags[i])
  }

  /** Pass 1 on one sorted parity list (lines 45-67): `temp` collects the current
      run of seats two apart and is flushed when the step breaks and at the end. */
  method TagRuns(tags: seq<Tag>, lst: seq<Slot>) returns (r: seq<Tag>)
    requires forall p :: 0 <= p < |lst| ==> lst[p].idx < |tags|
    requires DistinctIdx(lst)
    ensures |r| == |tags|
    ensures forall p :: 0 <= p < |lst| ==> r[lst[p].idx] == AfterRuns(lst, tags, p)
    ensures forall i :: 0 <= i < |tags| && !InSlots(lst, i) ==> r[i] == tags[i]
  {
    r := tags;
    var temp: seq<Slot> := [];
    ghost var start := 0;
    var k := 0;
    while k < |lst|
      invariant 0 <= start <= k <= |lst|
      invariant temp == lst[start..k]
      invariant k > 0 ==> start < k
      invariant 0 < start ==> start < |lst| && !TwoApart(lst, start - 1)
      invariant forall q :: start <= q < k - 1 ==> TwoApart(lst, q)
      invariant ScanState(tags, lst, r, start)
    {
      var sl := lst[k];
      if temp == [] {
        assert start == k;
        temp := [sl];
      } else if sl.seat - temp[|temp| - 1].seat == 2 {
        assert temp[|temp| - 1] == lst[k - 1] && TwoApart(lst, k - 1);
        assert lst[start..k + 1] == lst[start..k] + [lst[k]];
        temp := temp + [sl];
      } else {
        assert temp[|temp| - 1] == lst[k - 1];
        r := CloseRun(tags, lst, r, temp, start, k);
        temp := [sl];
        start := k;
      }
      k := k + 1;
    }
    if temp != [] {
      r := CloseRun(tags, lst, r, temp, start, k);
    }
  }

  /** The part of `FlushRun`'s promise that `CloseRun` consumes, as a predicate. */
  predicate Flushed(tags: seq<Tag>, r: seq<Tag>, r': seq<Tag>, temp: seq<Slot>)
    requires |r| == |tags| == |r'|
    requires forall p :: 0 <= p < |temp| ==> temp[p].idx < |tags|
  {
    (forall p :: 0 <= p < |temp| && |temp| >= 2 ==> r'[temp[p].idx] == RunTag(|temp|))
    && (forall i :: 0 <= i < |tags| && (|temp| < 2 || !InSlots(temp, i)) ==> r'[i] == r[i])
  }

  lemma SliceDistinct(lst: seq<Slot>, start: nat, stop: nat)
    requires start <= stop <= |lst| && DistinctIdx(lst)
    ensures DistinctIdx(lst[start..stop])
  {
    var temp := lst[start..stop];
    forall p, q | 0 <= p < q < |temp| ensures temp[p].idx != temp[q].idx {
      assert temp[p] == lst[start + p] && temp[q] == lst[start + q];
    }
  }

  /** Positions of the flushed run now carry their pass-1 tag; earlier ones keep theirs. */
  lemma CloseRunTagged(tags: seq<Tag>, lst: seq<Slot>, r: seq<Tag>, r': seq<Tag>, start: nat, stop: nat)
    requires forall p :: 0 <= p < |lst| ==> lst[p].idx < |tags|
    requires DistinctIdx(lst) && |r| == |tags| == |r'|
    requires start < stop <= |lst|
    requires forall p :: start <= p < stop ==> RunLen(lst, p) == stop - start
    requires Flushed(tags, r, r', lst[start..stop])
    requires forall p :: 0 <= p < start ==> r[lst[p].idx] == AfterRuns(lst, tags, p)
    requires forall i :: 0 <= i < |tags| && !InPrefix(lst, start, i) ==> r[i] == tags[i]
    ensures forall p :: 0 <= p < stop ==> r'[lst[p].idx] == AfterRuns(lst, tags, p)
  {
    var temp := lst[start..stop];
    forall p | 0 <= p < stop ensures r'[lst[p].idx] == AfterRuns(lst, tags, p) {
      if p < start {
        assert !InSlots(temp, lst[p].idx) by {
          forall q | 0 <= q < |temp| ensures temp[q].idx != lst[p].idx {
            assert temp[q] == lst[start + q];
          }
        }
      } else {
        assert temp[p - start] == lst[p];
        if |temp| < 2 {
          assert !InPrefix(lst, start, lst[p].idx);
        }
      }
    }
  }

  /** Records outside `lst[..stop]` still carry their tag from before the scan. */
  lemma CloseRunKept(tags: seq<Tag>, lst: seq<Slot>, r: seq<Tag>, r': seq<Tag>, start: nat, stop: nat)
    requires forall p :: 0 <= p < |lst| ==> lst[p].idx < |tags|
    requires |r| == |tags| == |r'| && start < stop <= |lst|
    requires Flushed(tags, r, r', lst[start..stop])
    requires forall i :: 0 <= i < |tags| && !InPrefix(lst, start, i) ==> r[i] == tags[i]
    ensures forall i :: 0 <= i < |tags| && !InPrefix(lst, stop, i) ==> r'[i] == tags[i]
  {
    var temp := lst[start..stop];
    forall i | 0 <= i < |tags| && !InPrefix(lst, stop, i) ensures r'[i] == tags[i] {
      assert !InPrefix(lst, start, i);
      assert !InSlots(temp, i) by {
        forall q | 0 <= q < |temp| ensures temp[q].idx != i {
          assert temp[q] == lst[start + q];
        }
      }
    }
  }

  /** Flushes the finished run `lst[start..stop]` and re-establishes the scan's invariant. */
  method CloseRun(tags: seq<Tag>, lst: seq<Slot>, r: seq<Tag>, temp: seq<Slot>, ghost start: nat, stop: nat)
    returns (r': seq<Tag>)
    requires forall p :: 0 <= p < |lst| ==> lst[p].idx < |tags|
    requires DistinctIdx(lst)
    requires start < stop <= |lst| && temp == lst[start..stop]
    requires start == 0 || !TwoApart(lst, start - 1)
    requires stop == |lst| || !TwoApart(lst, stop - 1)
    requires forall q :: start <= q < stop - 1 ==> TwoApart(lst, q)
    requires ScanState(tags, lst, r, start)
    ensures ScanState(tags, lst, r', stop)
  {
    RunBounds(lst, start, stop);
    SliceDistinct(lst, start, stop);
    r' := FlushRun(r, temp);
    assert Flushed(tags, r, r', temp);
    CloseRunTagged(tags, lst, r, r', start, stop);
    CloseRunKept(tags, lst, r, r', start, stop);
  }

  /** First position of `lst` holding record `i`, or `|lst|` when there is none. */
  function PosOf(lst: seq<Slot>, i: nat, from: nat): (p: nat)
    requires from <= |lst|
    ensures from <= p <= |lst|
    decreases |lst| - from
  {
    if from == |lst| || lst[from].idx == i then from else PosOf(lst, i, from + 1)
  }

  lemma {:induction false} PosOfFacts(lst: seq<Slot>, i: nat, from: nat, p: nat)
    requires from <= p < |lst| && lst[p].idx == i && DistinctIdx(lst)
    ensures PosOf(lst, i, from) == p
    decreases |lst| - from
  {
    if from < p {
      assert lst[from].idx != i;
      PosOfFacts(lst, i, from + 1, p);
    }
  }

  /** The sorted parity list that record `i` is scanned in. */
  function LineOf(keys: seq<SeatKey>, i: nat): seq<Slot>
    requires i < |keys|
  {
    ParityList(keys, RowOf(keys[i]), IsEven(keys[i].seat))
  }

  /** Record `i`'s tag after pass 1: the tag of the maximal run through its seat
      in its row and parity (SINGLE for a run of one). */
  function Pass1Tag(keys: seq<SeatKey>, i: nat): Tag
    requires i < |keys|
  {
    var L := LineOf(keys, i);
    var p := PosOf(L, i, 0);
    if p < |L| then RunTag(RunLen(L, p)) else Single
  }

  /** The record at position `p` of a parity list gets its run's tag from pass 1. */
  lemma Pass1TagAt(keys: seq<SeatKey>, g: RowKey, even: bool, p: nat)
    requires p < |ParityList(keys, g, even)|
    ensures var L := ParityList(keys, g, even);
      L[p].idx < |keys| && Pass1Tag(keys, L[p].idx) == RunTag(RunLen(L, p))
  {
    var L := ParityList(keys, g, even);
    ParityListMembers(keys, g, even);
    ParityListDistinct(keys, g, even);
    assert LineOf(keys, L[p].idx) == L;
    PosOfFacts(L, L[p].idx, 0, p);
  }

  /** One list of pass 1 (lines 42-67): filter the row group by parity, sort by
      seat, and tag its runs. */
  method RunLine(keys: seq<SeatKey>, tags: seq<Tag>, group: seq<Slot>, g: RowKey, even: bool)
    returns (r: seq<Tag>)
    requires |tags| == |keys| && group == Members(keys, g, |keys|)
    requires forall i :: 0 <= i < |keys| && RowOf(keys[i]) == g && IsEven(keys[i].seat) == even ==> tags[i] == Single
    ensures |r| == |keys|
    ensures forall i :: 0 <= i < |keys| ==>
      r[i] == if RowOf(keys[i]) == g && IsEven(keys[i].seat) == even then Pass1Tag(keys, i) else tags[i]
  {
    var lst := SortByKey(WithParity(group, even), BySeat);
    MembersWithParity(keys, g, even, |keys|);
    assert lst == ParityList(keys, g, even);
    ParityListMembers(keys, g, even);
    ParityListDistinct(keys, g, even);
    ParityListComplete(keys, g, even);
    r := TagRuns(tags, lst);
    forall i | 0 <= i < |keys|
      ensures r[i] == if RowOf(keys[i]) == g && IsEven(keys[i].seat) == even then Pass1Tag(keys, i) else tags[i]
    {
      if RowOf(keys[i]) == g && IsEven(keys[i].seat) == even {
        var p :| 0 <= p < |lst| && lst[p].idx == i;
        Pass1TagAt(keys, g, even, p);
        assert r[lst[p].idx] == AfterRuns(lst, tags, p);
      } else {
        assert !InSlots(lst, i);
      }
    }
  }

  /** Pass 1 (lines 40-67): every row group, even list first, then odd. */
  method PassRuns(keys: seq<SeatKey>, groups: map<RowKey, seq<Slot>>, order: seq<RowKey>)
    returns (r: seq<Tag>)
    requires forall p, q :: 0 <= p < q < |order| ==> order[p] != order[q]
    requires forall g :: g in order ==> g in groups && groups[g] == Members(keys, g, |keys|)
    requires forall i :: 0 <= i < |keys| ==> RowOf(keys[i]) in order
    ensures |r| == |keys| && forall i :: 0 <= i < |keys| ==> r[i] == Pass1Tag(keys, i)
  {
    r := seq(|keys|, _ => Single);
    var k := 0;
    while k < |order|
      invariant 0 <= k <= |order| && |r| == |keys|
      invariant forall i :: 0 <= i < |keys| ==>
        r[i] == if RowOf(keys[i]) in order[..k] then Pass1Tag(keys, i) else Single
    {
      var g := order[k];
      assert order[..k + 1] == order[..k] + [g];
      assert g !in order[..k] by {
        forall q | 0 <= q < k ensures order[..k][q] != g {
          assert order[..k][q] == order[q];
        }
      }
      r := RunLine(keys, r, groups[g], g, true);
      r := RunLine(keys, r, groups[g], g, false);
      k := k + 1;
    }
    assert order[..k] == order;
  }

  // ---------------------------------------------------------------------------
  // Facts shared by the passes

  /** Later passes only overwrite SINGLE: a tag other than SINGLE is final. */
  predicate Retagged(a: seq<Tag>, b: seq<Tag>) {
    |a| == |b| && forall i :: 0 <= i < |a| && a[i] != b[i] ==> a[i] == Single
  }

  lemma RetaggedTrans(a: seq<Tag>, b: seq<Tag>, c: seq<Tag>)
    requires Retagged(a, b) && Retagged(b, c)
    ensures Retagged(a, c)
  {
  }

  /** Records `i` and `j` sit in the same row of the same block and game, with
      seat numbers of the same parity. */
  predicate SameLine(keys: seq<SeatKey>, i: nat, j: nat)
    requires i < |keys| && j < |keys|
  {
    RowOf(keys[i]) == RowOf(keys[j]) && IsEven(keys[i].seat) == IsEven(keys[j].seat)
  }

  /** Every slot of `lst` is a record of row `g` with the given parity. */
  predicate OnLine(keys: seq<SeatKey>, lst: seq<Slot>, g: RowKey, even: bool) {
    SlotsOf(keys, lst) && DistinctIdx(lst)
    && forall p :: 0 <= p < |lst| ==> RowOf(keys[lst[p].idx]) == g && IsEven(keys[lst[p].idx].seat) == even
  }

  lemma ParityListOnLine(keys: seq<SeatKey>, g: RowKey, even: bool)
    ensures OnLine(keys, ParityList(keys, g, even), g, even)
  {
    ParityListMembers(keys, g, even);
    ParityListDistinct(keys, g, even);
  }

  /** Seats of the same parity are an even distance apart. */
  lemma SameParityEvenDiff(x: int, y: int)
    requires IsEven(x) == IsEven(y)
    ensures (y - x) % 2 == 0
  {
  }

  // ---------------------------------------------------------------------------
  // Pass 2: SCH-<gaps> within a row and parity

  /** Python's `abs(a - b)`. */
  function Dist(a: int, b: int): nat {
    if a <= b then b - a else a - b
  }

  /** "SCH-<gaps>" for two seats `diff` apart: `gaps = diff // 2 - 1` seats lie between. */
  function GapTag(diff: int): Tag
    requires diff > 2
  {
    SchGap(diff / 2 - 1)
  }

  /** Every slot of `lst` names a record of a table of size `n`. */
  predicate Listed(lst: seq<Slot>, n: nat) {
    forall p :: 0 <= p < |lst| ==> lst[p].idx < n
  }

  /** Lines 79-84: candidate `b` pairs with anchor `a` of the sorted list. */
  predicate GapEligible(tags: seq<Tag>, lst: seq<Slot>, a: nat, b: nat)
    requires a < |lst| && b < |lst| && Listed(lst, |tags|)
  {
    var diff := Dist(lst[a].seat, lst[b].seat);
    lst[b].seat > lst[a].seat
    && tags[lst[a].idx] == Single && tags[lst[b].idx] == Single
    && diff > 2 && diff <= 40 && diff % 2 == 0
  }

  /** The first candidate position from `b` on that pairs with anchor `a`; `|lst|` if none. */
  function FirstGapPartner(tags: seq<Tag>, lst: seq<Slot>, a: nat, b: nat): (q: nat)
    requires a < |lst| && b <= |lst| && Listed(lst, |tags|)
    ensures b <= q <= |lst|
    decreases |lst| - b
  {
    if b == |lst| || GapEligible(tags, lst, a, b) then b else FirstGapPartner(tags, lst, a, b + 1)
  }

  lemma {:induction false} FirstGapPartnerFacts(tags: seq<Tag>, lst: seq<Slot>, a: nat, b: nat)
    requires a < |lst| && b <= |lst| && Listed(lst, |tags|)
    ensures var q := FirstGapPartner(tags, lst, a, b);
      (q < |lst| ==> GapEligible(tags, lst, a, q))
      && forall q' :: b <= q' < q ==> !GapEligible(tags, lst, a, q')
    decreases |lst| - b
  {
    if b < |lst| && !GapEligible(tags, lst, a, b) {
      FirstGapPartnerFacts(tags, lst, a, b + 1);
    }
  }

  /** The tags after the inner loop for anchor `a` (lines 77-88). */
  function GapStep(tags: seq<Tag>, lst: seq<Slot>, a: nat): seq<Tag>
    requires a < |lst| && Listed(lst, |tags|)
  {
    var q := FirstGapPartner(tags, lst, a, 0);
    if q == |lst| then tags
    else
      FirstGapPartnerFacts(tags, lst, a, 0);
      var tag := GapTag(Dist(lst[a].seat, lst[q].seat));
      tags[lst[a].idx := tag][lst[q].idx := tag]
  }

  /** The tags after the anchors `lst[..n]` of one sorted parity list. */
  function GapScan(tags: seq<Tag>, lst: seq<Slot>, n: nat): (r: seq<Tag>)
    requires n <= |lst| && Listed(lst, |tags|)
    ensures |r| == |tags|
  {
    if n == 0 then tags else GapStep(GapScan(tags, lst, n - 1), lst, n - 1)
  }

  /** Pass 2 on one sorted parity list (lines 77-88). */
  method GapPairs(tags: seq<Tag>, lst: seq<Slot>) returns (r: seq<Tag>)
    requires Listed(lst, |tags|)
    ensures r == GapScan(tags, lst, |lst|)
  {
    r := tags;
    var a := 0;
    while a < |lst|
      invariant 0 <= a <= |lst| && r == GapScan(tags, lst, a)
    {
      ghost var before := r;
      var b := 0;
      while b < |lst|
        invariant 0 <= b <= |lst| && r == before
        invariant FirstGapPartner(before, lst, a, 0) == FirstGapPartner(before, lst, a, b)
      {
        if lst[b].seat > lst[a].seat && r[lst[a].idx] == Single && r[lst[b].idx] == Single {
          var diff := Dist(lst[a].seat, lst[b].seat);
          if diff > 2 && diff <= 40 && diff % 2 == 0 {
            var tag := GapTag(diff);
            r := r[lst[a].idx := tag][lst[b].idx := tag];
            break;
          }
        }
        b := b + 1;
      }
      a := a + 1;
    }
  }

  /** The only new tags are well-formed SCH-<gaps> tags. */
  predicate GapsOnly(a: seq<Tag>, b: seq<Tag>) {
    |a| == |b| && forall i :: 0 <= i < |a| && a[i] != b[i] ==> b[i].SchGap? && WellFormed(b[i])
  }

  /** Records without a slot in `lst` keep their tag. */
  predicate OutsideKept(a: seq<Tag>, b: seq<Tag>, lst: seq<Slot>) {
    |a| == |b| && forall i :: 0 <= i < |a| && !InSlots(lst, i) ==> b[i] == a[i]
  }

  lemma GapStepRetags(tags: seq<Tag>, lst: seq<Slot>, a: nat)
    requires a < |lst| && Listed(lst, |tags|)
    ensures var r := GapStep(tags, lst, a);
      Retagged(tags, r) && GapsOnly(tags, r) && OutsideKept(tags, r, lst)
  {
    FirstGapPartnerFacts(tags, lst, a, 0);
  }

  /** Pass 2 on one list changes only SINGLE records of that list, each to SCH-<gaps>. */
  lemma {:induction false} GapScanRetags(tags: seq<Tag>, lst: seq<Slot>, n: nat)
    requires n <= |lst| && Listed(lst, |tags|)
    ensures var r := GapScan(tags, lst, n);
      Retagged(tags, r) && GapsOnly(tags, r) && OutsideKept(tags, r, lst)
  {
    if n > 0 {
      GapScanRetags(tags, lst, n - 1);
      GapStepRetags(GapScan(tags, lst, n - 1), lst, n - 1);
    }
  }

  /** `j` is a partner of the SCH-<gaps> record `i`: another record of the same
      row and parity, `2 * gaps + 2` seats away, with the same tag. */
  predicate GapPartner(keys: seq<SeatKey>, tags: seq<Tag>, i: nat, j: nat)
    requires i < |keys| && |tags| == |keys| && tags[i].SchGap?
  {
    j < |keys| && j != i && tags[j] == tags[i] && SameLine(keys, i, j)
    && Dist(keys[i].seat, keys[j].seat) == 2 * tags[i].gaps + 2
  }

  ghost predicate HasGapPartner(keys: seq<SeatKey>, tags: seq<Tag>, i: nat)
    requires i < |keys| && |tags| == |keys| && tags[i].SchGap?
  {
    exists j :: GapPartner(keys, tags, i, j)
  }

  /** SCH-<gaps> tags come in pairs. */
  ghost predicate GapPaired(keys: seq<SeatKey>, tags: seq<Tag>) {
    |tags| == |keys|
    && forall i {:trigger HasGapPartner(keys, tags, i)} ::
         0 <= i < |keys| && tags[i].SchGap? ==> HasGapPartner(keys, tags, i)
  }

  lemma GapStepPaired(keys: seq<SeatKey>, tags: seq<Tag>, lst: seq<Slot>, g: RowKey, even: bool, a: nat)
    requires a < |lst| && |tags| == |keys| && OnLine(keys, lst, g, even)
    requires GapPaired(keys, tags)
    ensures GapPaired(keys, GapStep(tags, lst, a))
  {
    var q := FirstGapPartner(tags, lst, a, 0);
    if q < |lst| {
      FirstGapPartnerFacts(tags, lst, a, 0);
      var x, y := lst[a].idx, lst[q].idx;
      var tag := GapTag(Dist(lst[a].seat, lst[q].seat));
      var r := GapStep(tags, lst, a);
      assert r == tags[x := tag][y := tag];
      assert x != y;
      forall i | 0 <= i < |keys| && r[i].SchGap? ensures HasGapPartner(keys, r, i) {
        if i == x {
          assert GapPartner(keys, r, i, y);
        } else if i == y {
          assert GapPartner(keys, r, i, x);
        } else {
          assert tags[i] == r[i];
          assert HasGapPartner(keys, tags, i);
          var j: nat :| GapPartner(keys, tags, i, j);
          assert tags[j] != Single;
          assert GapPartner(keys, r, i, j);
        }
      }
    }
  }

  lemma {:induction false} GapScanPaired(keys: seq<SeatKey>, tags: seq<Tag>, lst: seq<Slot>, g: RowKey, even: bool, n: nat)
    requires n <= |lst| && |tags| == |keys| && OnLine(keys, lst, g, even)
    requires GapPaired(keys, tags)
    ensures GapPaired(keys, GapScan(tags, lst, n))
  {
    if n > 0 {
      GapScanPaired(keys, tags, lst, g, even, n - 1);
      GapStepPaired(keys, GapScan(tags, lst, n - 1), lst, g, even, n - 1);
    }
  }

  /** After anchor `a` was scanned: if it is still SINGLE, no later seat 4 to 40
      away in its list is. */
  predicate AnchorDone(tags: seq<Tag>, lst: seq<Slot>, a: nat)
    requires a < |lst| && Listed(lst, |tags|)
  {
    tags[lst[a].idx] == Single ==>
      forall q :: 0 <= q < |lst| && 2 < lst[q].seat - lst[a].seat <= 40 && (lst[q].seat - lst[a].seat) % 2 == 0
        ==> tags[lst[q].idx] != Single
  }

  lemma AnchorDoneKept(a: seq<Tag>, b: seq<Tag>, lst: seq<Slot>, p: nat)
    requires p < |lst| && Listed(lst, |a|) && Retagged(a, b) && AnchorDone(a, lst, p)
    ensures AnchorDone(b, lst, p)
  {
  }

  lemma {:induction false} GapScanSaturates(tags: seq<Tag>, lst: seq<Slot>, n: nat)
    requires n <= |lst| && Listed(lst, |tags|)
    ensures forall p :: 0 <= p < n ==> AnchorDone(GapScan(tags, lst, n), lst, p)
  {
    if n > 0 {
      var prev := GapScan(tags, lst, n - 1);
      var r := GapScan(tags, lst, n);
      GapScanSaturates(tags, lst, n - 1);
      GapStepRetags(prev, lst, n - 1);
      forall p | 0 <= p < n - 1 ensures AnchorDone(r, lst, p) {
        AnchorDoneKept(prev, r, lst, p);
      }
      FirstGapPartnerFacts(prev, lst, n - 1, 0);
      if FirstGapPartner(prev, lst, n - 1, 0) == |lst| {
        assert r == prev;
        assert AnchorDone(r, lst, n - 1) by {
          if r[lst[n - 1].idx] == Single {
            forall q | 0 <= q < |lst| && 2 < lst[q].seat - lst[n - 1].seat <= 40 && (lst[q].seat - lst[n - 1].seat) % 2 == 0
              ensures r[lst[q].idx] != Single
            {
              assert !GapEligible(prev, lst, n - 1, q);
            }
          }
        }
      } else {
        assert r[lst[n - 1].idx] != Single;
      }
    }
  }

  /** No two SINGLE records of row `g` and this parity are 4 to 40 seats apart. */
  predicate LineSaturated(keys: seq<SeatKey>, tags: seq<Tag>, g: RowKey, even: bool) {
    var L := ParityList(keys, g, even);
    forall p, q :: 0 <= p < |L| && 0 <= q < |L| && L[p].idx < |tags| && L[q].idx < |tags|
      && tags[L[p].idx] == Single && tags[L[q].idx] == Single
      ==> !(2 < L[q].seat - L[p].seat <= 40)
  }

  lemma LineSaturatedKept(keys: seq<SeatKey>, a: seq<Tag>, b: seq<Tag>, g: RowKey, even: bool)
    requires Retagged(a, b) && LineSaturated(keys, a, g, even)
    ensures LineSaturated(keys, b, g, even)
  {
  }

  /** Lines 70-88 for one row and parity: lists shorter than 2 are skipped. */
  function GapLine(keys: seq<SeatKey>, tags: seq<Tag>, g: RowKey, even: bool): (r: seq<Tag>)
    requires |tags| == |keys|
    ensures |r| == |keys|
  {
    var L := ParityList(keys, g, even);
    ParityListOnLine(keys, g, even);
    if |L| < 2 then tags else GapScan(tags, L, |L|)
  }

  lemma GapLineFacts(keys: seq<SeatKey>, tags: seq<Tag>, g: RowKey, even: bool)
    requires GapPaired(keys, tags)
    ensures var r := GapLine(keys, tags, g, even);
      Retagged(tags, r) && GapsOnly(tags, r) && GapPaired(keys, r) && LineSaturated(keys, r, g, even)
  {
    var L := ParityList(keys, g, even);
    ParityListOnLine(keys, g, even);
    var r := GapLine(keys, tags, g, even);
    if |L| >= 2 {
      GapScanRetags(tags, L, |L|);
      GapScanPaired(keys, tags, L, g, even, |L|);
      GapScanLineSaturated(keys, tags, g, even);
    }
  }

  lemma GapScanLineSaturated(keys: seq<SeatKey>, tags: seq<Tag>, g: RowKey, even: bool)
    requires |tags| == |keys| && OnLine(keys, ParityList(keys, g, even), g, even)
    ensures var L := ParityList(keys, g, even);
      LineSaturated(keys, GapScan(tags, L, |L|), g, even)
  {
    var L := ParityList(keys, g, even);
    assert forall p :: 0 <= p < |L| ==> IsEven(L[p].seat) == even;
    GapScanNoCloseSingles(tags, L, even);
  }

  /** After pass 2 on a list of one parity, no two of its SINGLE records are 4 to 40 seats apart. */
  lemma GapScanNoCloseSingles(tags: seq<Tag>, lst: seq<Slot>, even: bool)
    requires Listed(lst, |tags|) && forall p :: 0 <= p < |lst| ==> IsEven(lst[p].seat) == even
    ensures var r := GapScan(tags, lst, |lst|);
      forall p, q :: 0 <= p < |lst| && 0 <= q < |lst| && r[lst[p].idx] == Single && r[lst[q].idx] == Single
        ==> !(2 < lst[q].seat - lst[p].seat <= 40)
  {
    GapScanSaturates(tags, lst, |lst|);
  }

  /** Pass 2 over the row groups `rows` in order, the even list of a row before its odd one. */
  function GapRows(keys: seq<SeatKey>, tags: seq<Tag>, rows: seq<RowKey>): (r: seq<Tag>)
    requires |tags| == |keys|
    ensures |r| == |keys|
  {
    if rows == [] then tags
    else
      var g := rows[|rows| - 1];
      GapLine(keys, GapLine(keys, GapRows(keys, tags, rows[..|rows| - 1]), g, true), g, false)
  }

  lemma GapsOnlyTrans(a: seq<Tag>, b: seq<Tag>, c: seq<Tag>)
    requires GapsOnly(a, b) && GapsOnly(b, c) && Retagged(a, b) && Retagged(b, c)
    ensures GapsOnly(a, c) && Retagged(a, c)
  {
  }

  /** Pass 2 only turns SINGLE into SCH-<gaps>, keeps SCH-<gaps> paired, and leaves
      every row it visited without two SINGLEs 4 to 40 seats apart in one parity. */
  lemma {:induction false} GapRowsFacts(keys: seq<SeatKey>, tags: seq<Tag>, rows: seq<RowKey>)
    requires GapPaired(keys, tags)
    ensures var r := GapRows(keys, tags, rows);
      Retagged(tags, r) && GapsOnly(tags, r) && GapPaired(keys, r)
      && forall g, even :: g in rows ==> LineSaturated(keys, r, g, even)
  {
    if rows != [] {
      var init := rows[..|rows| - 1];
      var g := rows[|rows| - 1];
      var t0 := GapRows(keys, tags, init);
      var t1 := GapLine(keys, t0, g, true);
      var t2 := GapLine(keys, t1, g, false);
      GapRowsFacts(keys, tags, init);
      GapLineFacts(keys, t0, g, true);
      GapLineFacts(keys, t1, g, false);
      GapsOnlyTrans(tags, t0, t1);
      GapsOnlyTrans(tags, t1, t2);
      forall h, even | h in rows ensures LineSaturated(keys, t2, h, even) {
        if h == g && even {
          LineSaturatedKept(keys, t1, t2, h, even);
        } else if h != g {
          assert h in init;
          LineSaturatedKept(keys, t0, t1, h, even);
          LineSaturatedKept(keys, t1, t2, h, even);
        }
      }
    }
  }

  /** One list of pass 2 (lines 71-88): filter by parity, skip a list of fewer
      than two seats, sort the rest by seat and pair its SINGLEs. */
  method GapGroupLine(keys: seq<SeatKey>, tags: seq<Tag>, group: seq<Slot>, g: RowKey, even: bool)
    returns (r: seq<Tag>)
    requires |tags| == |keys| && group == Members(keys, g, |keys|)
    ensures r == GapLine(keys, tags, g, even)
  {
    var lst := WithParity(group, even);
    MembersWithParity(keys, g, even, |keys|);
    if |lst| < 2 {
      r := tags;
      return;
    }
    lst := SortByKey(lst, BySeat);
    ParityListOnLine(keys, g, even);
    r := GapPairs(tags, lst);
  }

  /** Pass 2 (lines 69-88) over every row group in insertion order. */
  method PassGaps(keys: seq<SeatKey>, groups: map<RowKey, seq<Slot>>, order: seq<RowKey>, tags: seq<Tag>)
    returns (r: seq<Tag>)
    requires |tags| == |keys|
    requires forall g :: g in order ==> g in groups && groups[g] == Members(keys, g, |keys|)
    ensures r == GapRows(keys, tags, order)
  {
    r := tags;
    var k := 0;
    while k < |order|
      invariant 0 <= k <= |order| && r == GapRows(keys, tags, order[..k])
    {
      var g := order[k];
      assert order[..k + 1][..k] == order[..k];
      assert GapRows(keys, tags, order[..k + 1])
        == GapLine(keys, GapLine(keys, r, g, true), g, false);
      r := GapGroupLine(keys, r, groups[g], g, true);
      r := GapGroupLine(keys, r, groups[g], g, false);
      k := k + 1;
    }
    assert order[..k] == order;
  }

  // ---------------------------------------------------------------------------
  // Pass 3: SCH across adjacent rows

  /** An entry of `SPECIAL_SCH_PAIRS`: in this block, row `row2` seat `seat2` counts as
      directly above or below row `row1` seat `seat1`. */
  datatype SpecialPair = SpecialPair(block: string, row1: int, seat1: int, row2: int, seat2: int)

  /** Lines 92-96: block 618, row 7 seat 24 sits over row 6 seat 28, listed both ways. */
  const SpecialPairs: seq<SpecialPair> :=
    [SpecialPair("618", 7, 24, 6, 28), SpecialPair("618", 6, 28, 7, 24)]

  /** The special seats probed for `k`, in table order (lines 107-114). */
  function SpecialTargets(k: SeatKey, specs: seq<SpecialPair>): seq<SeatKey> {
    if specs == [] then []
    else
      (if Upper(k.block) == specs[0].block && k.row == specs[0].row1 && k.seat == specs[0].seat1
       then [SeatKey(k.game, k.block, specs[0].row2, specs[0].seat2)] else [])
      + SpecialTargets(k, specs[1..])
  }

  /** The six standard probes of lines 120-127: the row in front, then the row
      behind, each at seat offsets -2, 0 and +2. */
  function NeighborKeys(k: SeatKey): seq<SeatKey> {
    [SeatKey(k.game, k.block, k.row - 1, k.seat - 2), SeatKey(k.game, k.block, k.row - 1, k.seat),
     SeatKey(k.game, k.block, k.row - 1, k.seat + 2), SeatKey(k.game, k.block, k.row + 1, k.seat - 2),
     SeatKey(k.game, k.block, k.row + 1, k.seat), SeatKey(k.game, k.block, k.row + 1, k.seat + 2)]
  }

  /** Every seat pass 3 probes for `k`, in probing order. */
  function Targets(k: SeatKey): seq<SeatKey> {
    SpecialTargets(k, SpecialPairs) + NeighborKeys(k)
  }

  /** The special probes written out: at most one of the two entries applies. */
  lemma SpecialTargetsOf(k: SeatKey)
    ensures SpecialTargets(k, SpecialPairs) ==
      if Upper(k.block) == "618" && k.row == 7 && k.seat == 24 then [SeatKey(k.game, k.block, 6, 28)]
      else if Upper(k.block) == "618" && k.row == 6 && k.seat == 28 then [SeatKey(k.game, k.block, 7, 24)]
      else []
  {
    var specs := SpecialPairs;
    var first := if Upper(k.block) == "618" && k.row == 7 && k.seat == 24 then [SeatKey(k.game, k.block, 6, 28)] else [];
    var second := if Upper(k.block) == "618" && k.row == 6 && k.seat == 28 then [SeatKey(k.game, k.block, 7, 24)] else [];
    assert specs[1..] == [SpecialPair("618", 6, 28, 7, 24)];
    assert specs[1..][1..] == [];
    assert SpecialTargets(k, specs[1..]) == second + [];
    assert SpecialTargets(k, specs) == first + second;
  }

  lemma NeighborsSymmetric(k: SeatKey, t: SeatKey)
    requires t in NeighborKeys(k)
    ensures t.game == k.game && t.block == k.block && t.row != k.row
    ensures k in NeighborKeys(t)
  {
    var d :| 0 <= d < 6 && NeighborKeys(k)[d] == t;
    assert NeighborKeys(t)[5 - d] == k;
  }

  /** A probed seat lies in the same game and block, in another row; and the
      relation is symmetric: `k` is in turn probed for each of its targets. */
  lemma TargetsFacts(k: SeatKey, t: SeatKey)
    requires t in Targets(k)
    ensures t.game == k.game && t.block == k.block && t.row != k.row
    ensures k in Targets(t)
  {
    SpecialTargetsOf(k);
    if t in SpecialTargets(k, SpecialPairs) {
      SpecialTargetsOf(t);
      assert Upper(t.block) == Upper(k.block);
      assert k in SpecialTargets(t, SpecialPairs);
    } else {
      NeighborsSymmetric(k, t);
    }
  }

  /** Every entry of `seatMap` points at a record with that key (lines 29 and 37). */
  predicate IndexOf(keys: seq<SeatKey>, seatMap: map<SeatKey, nat>) {
    forall t :: t in seatMap ==> seatMap[t] < |keys| && keys[seatMap[t]] == t
  }

  /** The first probe from `d` on that finds a listed seat still SINGLE; `|ts|` if none. */
  function Probe(seatMap: map<SeatKey, nat>, tags: seq<Tag>, ts: seq<SeatKey>, d: nat): (e: nat)
    requires d <= |ts| && forall t :: t in seatMap ==> seatMap[t] < |tags|
    ensures d <= e <= |ts|
    decreases |ts| - d
  {
    if d == |ts| || (ts[d] in seatMap && tags[seatMap[ts[d]]] == Single) then d
    else Probe(seatMap, tags, ts, d + 1)
  }

  lemma {:induction false} ProbeFacts(seatMap: map<SeatKey, nat>, tags: seq<Tag>, ts: seq<SeatKey>, d: nat)
    requires d <= |ts| && forall t :: t in seatMap ==> seatMap[t] < |tags|
    ensures var e := Probe(seatMap, tags, ts, d);
      (e < |ts| ==> ts[e] in seatMap && tags[seatMap[ts[e]]] == Single)
      && forall d' :: d <= d' < e && ts[d'] in seatMap ==> tags[seatMap[ts[d']]] != Single
    decreases |ts| - d
  {
    if d < |ts| && !(ts[d] in seatMap && tags[seatMap[ts[d]]] == Single) {
      ProbeFacts(seatMap, tags, ts, d + 1);
    }
  }

  /** The tags after pass 3 visits record `i` (lines 98-129). */
  function DiagStep(keys: seq<SeatKey>, seatMap: map<SeatKey, nat>, tags: seq<Tag>, i: nat): (r: seq<Tag>)
    requires i < |keys| == |tags| && forall t :: t in seatMap ==> seatMap[t] < |tags|
    ensures |r| == |tags|
  {
    if tags[i] != Single then tags
    else
      var ts := Targets(keys[i]);
      var d := Probe(seatMap, tags, ts, 0);
      if d == |ts| then tags
      else
        ProbeFacts(seatMap, tags, ts, 0);
        tags[i := Sch][seatMap[ts[d]] := Sch]
  }

  /** The tags after pass 3 has visited records `0 .. n-1`. */
  function DiagScan(keys: seq<SeatKey>, seatMap: map<SeatKey, nat>, tags: seq<Tag>, n: nat): (r: seq<Tag>)
    requires n <= |keys| == |tags| && forall t :: t in seatMap ==> seatMap[t] < |tags|
    ensures |r| == |tags|
  {
    if n == 0 then tags else DiagStep(keys, seatMap, DiagScan(keys, seatMap, tags, n - 1), n - 1)
  }

  /** Pass 3 (lines 98-129): every record still SINGLE probes its targets in order
      and pairs with the first listed seat that is SINGLE too. */
  method PassDiagonal(keys: seq<SeatKey>, seatMap: map<SeatKey, nat>, tags: seq<Tag>) returns (r: seq<Tag>)
    requires |keys| == |tags| && forall t :: t in seatMap ==> seatMap[t] < |tags|
    ensures r == DiagScan(keys, seatMap, tags, |keys|)
  {
    r := tags;
    var i := 0;
    while i < |keys|
      invariant 0 <= i <= |keys| && r == DiagScan(keys, seatMap, tags, i)
    {
      if r[i] == Single {
        var ts := Targets(keys[i]);
        ghost var before := r;
        var d := 0;
        while d < |ts|
          invariant 0 <= d <= |ts| && r == before
          invariant Probe(seatMap, before, ts, 0) == Probe(seatMap, before, ts, d)
        {
          var t := ts[d];
          if t in seatMap && r[seatMap[t]] == Single {
            var j := seatMap[t];
            r := r[i := Sch][j := Sch];
            break;
          }
          d := d + 1;
        }
      }
      i := i + 1;
    }
  }

  /** The only new tags are SCH. */
  predicate SchOnly(a: seq<Tag>, b: seq<Tag>) {
    |a| == |b| && forall i :: 0 <= i < |a| && a[i] != b[i] ==> b[i] == Sch
  }

  lemma {:induction false} DiagScanRetags(keys: seq<SeatKey>, seatMap: map<SeatKey, nat>, tags: seq<Tag>, n: nat)
    requires n <= |keys| == |tags| && forall t :: t in seatMap ==> seatMap[t] < |tags|
    ensures var r := DiagScan(keys, seatMap, tags, n); Retagged(tags, r) && SchOnly(tags, r)
  {
    if n > 0 {
      DiagScanRetags(keys, seatMap, tags, n - 1);
      var prev := DiagScan(keys, seatMap, tags, n - 1);
      ProbeFacts(seatMap, prev, Targets(keys[n - 1]), 0);
    }
  }

  /** Some other SCH record sits at a seat that record `i` probes. */
  ghost predicate HasDiagPartner(keys: seq<SeatKey>, tags: seq<Tag>, i: nat)
    requires i < |keys| == |tags|
  {
    exists j: nat :: j < |keys| && j != i && tags[j] == Sch && keys[j] in Targets(keys[i])
  }

  /** SCH tags come in pairs of seats over one another. */
  ghost predicate DiagPaired(keys: seq<SeatKey>, tags: seq<Tag>) {
    |tags| == |keys|
    && forall i {:trigger HasDiagPartner(keys, tags, i)} ::
         0 <= i < |keys| && tags[i] == Sch ==> HasDiagPartner(keys, tags, i)
  }

  lemma DiagStepPaired(keys: seq<SeatKey>, seatMap: map<SeatKey, nat>, tags: seq<Tag>, i: nat)
    requires i < |keys| == |tags| && IndexOf(keys, seatMap) && DiagPaired(keys, tags)
    ensures DiagPaired(keys, DiagStep(keys, seatMap, tags, i))
  {
    var r := DiagStep(keys, seatMap, tags, i);
    if r != tags {
      var ts := Targets(keys[i]);
      var d := Probe(seatMap, tags, ts, 0);
      ProbeFacts(seatMap, tags, ts, 0);
      var j := seatMap[ts[d]];
      TargetsFacts(keys[i], keys[j]);
      assert j != i;
      assert r == tags[i := Sch][j := Sch];
      forall x | 0 <= x < |keys| && r[x] == Sch ensures HasDiagPartner(keys, r, x) {
        if x == i {
          assert r[j] == Sch;
        } else if x == j {
          assert r[i] == Sch;
        } else {
          assert tags[x] == Sch;
          assert HasDiagPartner(keys, tags, x);
          var y: nat :| y < |keys| && y != x && tags[y] == Sch && keys[y] in Targets(keys[x]);
          assert r[y] == Sch;
        }
      }
    }
  }

  lemma {:induction false} DiagScanPaired(keys: seq<SeatKey>, seatMap: map<SeatKey, nat>, tags: seq<Tag>, n: nat)
    requires n <= |keys| == |tags| && IndexOf(keys, seatMap) && DiagPaired(keys, tags)
    ensures DiagPaired(keys, DiagScan(keys, seatMap, tags, n))
  {
    if n > 0 {
      DiagScanPaired(keys, seatMap, tags, n - 1);
      DiagStepPaired(keys, seatMap, DiagScan(keys, seatMap, tags, n - 1), n - 1);
    }
  }

  /** Every probe of `ts` finds no listed seat or one that is no longer SINGLE. */
  predicate ProbesFail(seatMap: map<SeatKey, nat>, tags: seq<Tag>, ts: seq<SeatKey>)
    requires forall t :: t in seatMap ==> seatMap[t] < |tags|
  {
    forall d :: 0 <= d < |ts| && ts[d] in seatMap ==> tags[seatMap[ts[d]]] != Single
  }

  /** Record `i`, if still SINGLE, has no SINGLE seat among its probes. */
  predicate DiagDone(keys: seq<SeatKey>, seatMap: map<SeatKey, nat>, tags: seq<Tag>, i: nat)
    requires i < |keys| == |tags| && forall t :: t in seatMap ==> seatMap[t] < |tags|
  {
    tags[i] == Single ==> ProbesFail(seatMap, tags, Targets(keys[i]))
  }

  lemma DiagDoneKept(keys: seq<SeatKey>, seatMap: map<SeatKey, nat>, a: seq<Tag>, b: seq<Tag>, i: nat)
    requires i < |keys| == |a| && forall t :: t in seatMap ==> seatMap[t] < |a|
    requires Retagged(a, b) && DiagDone(keys, seatMap, a, i)
    ensures DiagDone(keys, seatMap, b, i)
  {
  }

  lemma {:induction false} DiagScanSaturates(keys: seq<SeatKey>, seatMap: map<SeatKey, nat>, tags: seq<Tag>, n: nat)
    requires n <= |keys| == |tags| && forall t :: t in seatMap ==> seatMap[t] < |tags|
    ensures forall i :: 0 <= i < n ==> DiagDone(keys, seatMap, DiagScan(keys, seatMap, tags, n), i)
  {
    if n > 0 {
      var prev := DiagScan(keys, seatMap, tags, n - 1);
      var r := DiagScan(keys, seatMap, tags, n);
      DiagScanSaturates(keys, seatMap, tags, n - 1);
      ProbeFacts(seatMap, prev, Targets(keys[n - 1]), 0);
      assert Retagged(prev, r);
      forall i | 0 <= i < n - 1 ensures DiagDone(keys, seatMap, r, i) {
        DiagDoneKept(keys, seatMap, prev, r, i);
      }
    }
  }

  // ---------------------------------------------------------------------------
  // The whole classifier

  /** The first loop (lines 32-38): `seat_map`, `row_groups`, and the order in
      which the row groups were first seen (the dictionary's iteration order).
      `keys` holds each record's normalised key (lines 33-36). */
  method BuildIndex(keys: seq<SeatKey>)
    returns (seatMap: map<SeatKey, nat>, groups: map<RowKey, seq<Slot>>, order: seq<RowKey>)
    ensures seatMap == SeatIndex(keys, |keys|) && order == RowOrder(keys, |keys|)
    ensures forall g :: g in groups <==> g in order
    ensures forall g :: g in order ==> groups[g] == Members(keys, g, |keys|)
  {
    seatMap, groups, order := map[], map[], [];
    var i := 0;
    while i < |keys|
      invariant 0 <= i <= |keys| && IndexState(keys, seatMap, groups, order, i)
    {
      seatMap, groups, order := AddRecord(keys, seatMap, groups, order, i);
      i := i + 1;
    }
  }

  /** One iteration of the first loop (lines 37-38): record `i` becomes the
      `seat_map` entry for its key and joins its row group, which is created
      (and so takes its place in the iteration order) on first sight. */
  method AddRecord(keys: seq<SeatKey>, seatMap: map<SeatKey, nat>, groups: map<RowKey, seq<Slot>>,
                   order: seq<RowKey>, i: nat)
    returns (seatMap': map<SeatKey, nat>, groups': map<RowKey, seq<Slot>>, order': seq<RowKey>)
    requires i < |keys| && IndexState(keys, seatMap, groups, order, i)
    ensures IndexState(keys, seatMap', groups', order', i + 1)
  {
    var k := keys[i];
    var g := RowOf(k);
    var slot := Slot(i, k.seat);
    IndexStep(keys, seatMap, groups, order, i);
    seatMap' := seatMap[k := i];
    if g in groups {
      groups', order' := groups[g := groups[g] + [slot]], order;
    } else {
      groups', order' := groups[g := [slot]], order + [g];
    }
  }

  /** The tables of the first loop once it has taken in `n` records. */
  ghost predicate IndexState(keys: seq<SeatKey>, seatMap: map<SeatKey, nat>, groups: map<RowKey, seq<Slot>>,
                             order: seq<RowKey>, n: nat)
    requires n <= |keys|
  {
    seatMap == SeatIndex(keys, n) && order == RowOrder(keys, n) && GroupsOk(keys, groups, order, n)
  }

  lemma IndexStep(keys: seq<SeatKey>, seatMap: map<SeatKey, nat>, groups: map<RowKey, seq<Slot>>,
                  order: seq<RowKey>, i: nat)
    requires i < |keys| && IndexState(keys, seatMap, groups, order, i)
    ensures var g := RowOf(keys[i]);
      var slot := Slot(i, keys[i].seat);
      IndexState(keys, seatMap[keys[i] := i],
                 if g in groups then groups[g := groups[g] + [slot]] else groups[g := [slot]],
                 if g in groups then order else order + [g], i + 1)
  {
    if RowOf(keys[i]) in groups {
      GroupsAppend(keys, groups, order, i);
    } else {
      GroupsCreate(keys, groups, order, i);
    }
  }

  /** `row_groups` and its key order hold the first `n` records. */
  ghost predicate GroupsOk(keys: seq<SeatKey>, groups: map<RowKey, seq<Slot>>, order: seq<RowKey>, n: nat)
    requires n <= |keys|
  {
    (forall g :: g in groups <==> g in order)
    && forall g :: g in order ==> groups[g] == Members(keys, g, n)
  }

  lemma GroupsAppend(keys: seq<SeatKey>, groups: map<RowKey, seq<Slot>>, order: seq<RowKey>, i: nat)
    requires i < |keys| && GroupsOk(keys, groups, order, i) && RowOf(keys[i]) in groups
    ensures var g := RowOf(keys[i]);
      GroupsOk(keys, groups[g := groups[g] + [Slot(i, keys[i].seat)]], order, i + 1)
  {
    var g := RowOf(keys[i]);
    forall h | h in order ensures Members(keys, h, i + 1) == Members(keys, h, i) + (if h == g then [Slot(i, keys[i].seat)] else []) {
    }
    forall h | h in order && h != g ensures Members(keys, h, i + 1) == Members(keys, h, i) {
      assert Members(keys, h, i) + [] == Members(keys, h, i);
    }
  }

  lemma GroupsCreate(keys: seq<SeatKey>, groups: map<RowKey, seq<Slot>>, order: seq<RowKey>, i: nat)
    requires i < |keys| && GroupsOk(keys, groups, order, i) && RowOf(keys[i]) !in groups
    requires order == RowOrder(keys, i)
    ensures var g := RowOf(keys[i]);
      GroupsOk(keys, groups[g := [Slot(i, keys[i].seat)]], order + [g], i + 1)
  {
    var g := RowOf(keys[i]);
    MembersOutside(keys, g, i);
    forall h | h in order ensures Members(keys, h, i + 1) == Members(keys, h, i) {
      assert Members(keys, h, i) + [] == Members(keys, h, i);
    }
  }

  /** A row not yet seen has no members. */
  lemma {:induction false} MembersOutside(keys: seq<SeatKey>, g: RowKey, n: nat)
    requires n <= |keys| && g !in RowOrder(keys, n)
    ensures Members(keys, g, n) == []
  {
    if n > 0 {
      assert RowOrder(keys, n - 1) <= RowOrder(keys, n);
      MembersOutside(keys, g, n - 1);
    }
  }

  lemma {:induction false} SeatIndexLast(keys: seq<SeatKey>, n: nat, j: nat)
    requires j < n <= |keys|
    ensures keys[j] in SeatIndex(keys, n) && SeatIndex(keys, n)[keys[j]] >= j
  {
    if j < n - 1 {
      SeatIndexLast(keys, n - 1, j);
    }
  }

  /** Record `j`'s seat key appears again later, so `seat_map` lists the later record. */
  ghost predicate Shadowed(keys: seq<SeatKey>, j: nat) {
    exists j' :: j < j' < |keys| && keys[j'] == keys[j]
  }

  /** Pass 1's PAIR and "<n> together" tags survive, and no other record carries one. */
  predicate RunsKept(keys: seq<SeatKey>, tags: seq<Tag>) {
    |tags| == |keys|
    && forall i :: 0 <= i < |keys| ==>
         if Pass1Tag(keys, i) != Single then tags[i] == Pass1Tag(keys, i)
         else !tags[i].Pair? && !tags[i].Together?
  }

  /** No two SINGLE records of one row and parity are 4 to 40 seats apart. */
  predicate GapSaturated(keys: seq<SeatKey>, tags: seq<Tag>) {
    |tags| == |keys|
    && forall i, j ::
         (0 <= i < |keys| && 0 <= j < |keys| && tags[i] == Single && tags[j] == Single && SameLine(keys, i, j))
         ==> !(2 < keys[j].seat - keys[i].seat <= 40)
  }

  /** Two SINGLE records sit over one another only when the probed one is a
      duplicate seat that a later record replaced in `seat_map`. */
  ghost predicate DiagSaturated(keys: seq<SeatKey>, tags: seq<Tag>) {
    |tags| == |keys|
    && forall i, j ::
         (0 <= i < |keys| && 0 <= j < |keys| && tags[i] == Single && tags[j] == Single && keys[j] in Targets(keys[i]))
         ==> Shadowed(keys, j)
  }

  /** What every result of `classify_together` satisfies; SCH tags come in pairs. */
  ghost predicate IsClassification(keys: seq<SeatKey>, tags: seq<Tag>) {
    |tags| == |keys|
    && (forall i :: 0 <= i < |tags| ==> WellFormed(tags[i]))
    && RunsKept(keys, tags)
    && GapPaired(keys, tags) && DiagPaired(keys, tags)
    && GapSaturated(keys, tags) && DiagSaturated(keys, tags)
    && SchEven(tags)
  }

  /** The tags after pass 1. */
  function Pass1Tags(keys: seq<SeatKey>): (r: seq<Tag>)
    ensures |r| == |keys| && forall i :: 0 <= i < |keys| ==> r[i] == Pass1Tag(keys, i)
  {
    seq(|keys|, i requires 0 <= i < |keys| => Pass1Tag(keys, i))
  }

  /** `classify_together` on records with these keys: the three passes in order. */
  function Classify(keys: seq<SeatKey>): (r: seq<Tag>)
    ensures |r| == |keys|
  {
    SeatIndexFacts(keys, |keys|);
    var afterGaps := GapRows(keys, Pass1Tags(keys), RowOrder(keys, |keys|));
    DiagScan(keys, SeatIndex(keys, |keys|), afterGaps, |keys|)
  }

  lemma GapPairedKept(keys: seq<SeatKey>, a: seq<Tag>, b: seq<Tag>)
    requires GapPaired(keys, a) && Retagged(a, b) && SchOnly(a, b)
    ensures GapPaired(keys, b)
  {
    forall i | 0 <= i < |keys| && b[i].SchGap? ensures HasGapPartner(keys, b, i) {
      assert a[i] == b[i];
      assert HasGapPartner(keys, a, i);
      var j: nat :| GapPartner(keys, a, i, j);
      assert a[j] == b[j];
      assert GapPartner(keys, b, i, j);
    }
  }

  lemma LinesSaturate(keys: seq<SeatKey>, tags: seq<Tag>)
    requires |tags| == |keys|
    requires forall g, even :: g in RowOrder(keys, |keys|) ==> LineSaturated(keys, tags, g, even)
    ensures GapSaturated(keys, tags)
  {
    RowOrderFacts(keys, |keys|);
    forall i, j | 0 <= i < |keys| && 0 <= j < |keys| && tags[i] == Single && tags[j] == Single && SameLine(keys, i, j)
      ensures !(2 < keys[j].seat - keys[i].seat <= 40)
    {
      assert LineSaturated(keys, tags, RowOf(keys[i]), IsEven(keys[i].seat));
      LineSaturatedAt(keys, tags, i, j);
    }
  }

  lemma LineSaturatedAt(keys: seq<SeatKey>, tags: seq<Tag>, i: nat, j: nat)
    requires |tags| == |keys| && i < |keys| && j < |keys| && SameLine(keys, i, j)
    requires tags[i] == Single && tags[j] == Single
    requires LineSaturated(keys, tags, RowOf(keys[i]), IsEven(keys[i].seat))
    ensures !(2 < keys[j].seat - keys[i].seat <= 40)
  {
    var g, even := RowOf(keys[i]), IsEven(keys[i].seat);
    var L := ParityList(keys, g, even);
    ParityListComplete(keys, g, even);
    ParityListMembers(keys, g, even);
    var p :| 0 <= p < |L| && L[p].idx == i;
    var q :| 0 <= q < |L| && L[q].idx == j;
  }

  lemma ProbesSaturate(keys: seq<SeatKey>, tags: seq<Tag>)
    requires |tags| == |keys|
    requires forall t :: t in SeatIndex(keys, |keys|) ==> SeatIndex(keys, |keys|)[t] < |tags|
    requires forall i :: 0 <= i < |keys| ==> DiagDone(keys, SeatIndex(keys, |keys|), tags, i)
    ensures DiagSaturated(keys, tags)
  {
    var seatMap := SeatIndex(keys, |keys|);
    SeatIndexFacts(keys, |keys|);
    forall i, j | 0 <= i < |keys| && 0 <= j < |keys| && tags[i] == Single && tags[j] == Single
      && keys[j] in Targets(keys[i])
      ensures Shadowed(keys, j)
    {
      var ts := Targets(keys[i]);
      var d :| 0 <= d < |ts| && ts[d] == keys[j];
      assert DiagDone(keys, seatMap, tags, i);
      SeatIndexLast(keys, |keys|, j);
      var j' := seatMap[keys[j]];
      assert tags[j'] != Single;
      assert j < j' && keys[j'] == keys[j];
    }
  }

  /** Pass 1's tags are well formed and none of them is an SCH tag. */
  lemma Pass1TagsFacts(keys: seq<SeatKey>)
    ensures forall i :: 0 <= i < |keys| ==>
      WellFormed(Pass1Tag(keys, i)) && !Pass1Tag(keys, i).SchGap? && !Pass1Tag(keys, i).Sch?
  {
    forall i | 0 <= i < |keys|
      ensures WellFormed(Pass1Tag(keys, i)) && !Pass1Tag(keys, i).SchGap? && !Pass1Tag(keys, i).Sch?
    {
      var L := LineOf(keys, i);
      var p := PosOf(L, i, 0);
      if p < |L| {
        assert RunLen(L, p) >= 1;
      }
    }
  }

  /** The state between pass 2 and pass 3, with what pass 2 guarantees. */
  lemma AfterGapsFacts(keys: seq<SeatKey>)
    ensures var t1 := Pass1Tags(keys);
      var t2 := GapRows(keys, t1, RowOrder(keys, |keys|));
      Retagged(t1, t2) && GapsOnly(t1, t2) && GapPaired(keys, t2) && DiagPaired(keys, t2)
      && (forall g, even :: g in RowOrder(keys, |keys|) ==> LineSaturated(keys, t2, g, even))
  {
    var t1 := Pass1Tags(keys);
    var t2 := GapRows(keys, t1, RowOrder(keys, |keys|));
    Pass1NoSch(keys);
    NoGapTagsPaired(keys, t1);
    GapRowsFacts(keys, t1, RowOrder(keys, |keys|));
    GapsKeepNoSch(keys, t1, t2);
  }

  lemma Pass1NoSch(keys: seq<SeatKey>)
    ensures forall i :: 0 <= i < |keys| ==> !Pass1Tags(keys)[i].SchGap? && !Pass1Tags(keys)[i].Sch?
  {
    Pass1TagsFacts(keys);
  }

  /** With no SCH-<gaps> tag at all, every SCH-<gaps> tag is trivially paired. */
  lemma NoGapTagsPaired(keys: seq<SeatKey>, tags: seq<Tag>)
    requires |tags| == |keys| && forall i :: 0 <= i < |tags| ==> !tags[i].SchGap?
    ensures GapPaired(keys, tags)
  {
  }

  /** Tags that pass 2 produced from tags without SCH carry no SCH either. */
  lemma GapsKeepNoSch(keys: seq<SeatKey>, a: seq<Tag>, b: seq<Tag>)
    requires |a| == |keys| && GapsOnly(a, b) && forall i :: 0 <= i < |a| ==> !a[i].Sch?
    ensures DiagPaired(keys, b)
  {
    assert forall i :: 0 <= i < |b| ==> !b[i].Sch?;
  }

  lemma ClassifyRuns(keys: seq<SeatKey>)
    ensures var r := Classify(keys);
      (forall i :: 0 <= i < |r| ==> WellFormed(r[i])) && RunsKept(keys, r)
  {
    SeatIndexFacts(keys, |keys|);
    var t1 := Pass1Tags(keys);
    var t2 := GapRows(keys, t1, RowOrder(keys, |keys|));
    AfterGapsFacts(keys);
    DiagScanRetags(keys, SeatIndex(keys, |keys|), t2, |keys|);
    Pass1TagsFacts(keys);
  }

  lemma ClassifyPaired(keys: seq<SeatKey>)
    ensures GapPaired(keys, Classify(keys)) && DiagPaired(keys, Classify(keys))
  {
    SeatIndexFacts(keys, |keys|);
    var t2 := GapRows(keys, Pass1Tags(keys), RowOrder(keys, |keys|));
    var t3 := DiagScan(keys, SeatIndex(keys, |keys|), t2, |keys|);
    AfterGapsFacts(keys);
    DiagScanRetags(keys, SeatIndex(keys, |keys|), t2, |keys|);
    DiagScanPaired(keys, SeatIndex(keys, |keys|), t2, |keys|);
    GapPairedKept(keys, t2, t3);
  }

  lemma ClassifySaturated(keys: seq<SeatKey>)
    ensures GapSaturated(keys, Classify(keys)) && DiagSaturated(keys, Classify(keys))
  {
    SeatIndexFacts(keys, |keys|);
    var seatMap := SeatIndex(keys, |keys|);
    var t2 := GapRows(keys, Pass1Tags(keys), RowOrder(keys, |keys|));
    var t3 := DiagScan(keys, seatMap, t2, |keys|);
    AfterGapsFacts(keys);
    DiagScanRetags(keys, seatMap, t2, |keys|);
    forall g, even | g in RowOrder(keys, |keys|) ensures LineSaturated(keys, t3, g, even) {
      LineSaturatedKept(keys, t2, t3, g, even);
    }
    LinesSaturate(keys, t3);
    DiagScanSaturates(keys, seatMap, t2, |keys|);
    ProbesSaturate(keys, t3);
  }

  // ---------------------------------------------------------------------------
  // SCH tags come in pairs: lines 87, 113 and 126 tag two records at once

  /** How many entries of `tags` are `t`. */
  function Occurrences(tags: seq<Tag>, t: Tag): (n: nat)
    ensures n <= |tags|
  {
    if tags == [] then 0
    else Occurrences(tags[..|tags| - 1], t) + (if tags[|tags| - 1] == t then 1 else 0)
  }

  /** Overwriting one entry moves one occurrence from the old tag to the new one. */
  lemma {:induction false} OccurrencesUpdate(tags: seq<Tag>, i: nat, v: Tag, t: Tag)
    requires i < |tags|
    ensures Occurrences(tags[i := v], t) + (if tags[i] == t then 1 else 0)
         == Occurrences(tags, t) + (if v == t then 1 else 0)
    decreases |tags|
  {
    var n := |tags| - 1;
    if i == n {
      assert tags[i := v][..n] == tags[..n];
    } else {
      assert tags[i := v][..n] == tags[..n][i := v];
      OccurrencesUpdate(tags[..n], i, v, t);
    }
  }

  lemma {:induction false} OccurrencesAbsent(tags: seq<Tag>, t: Tag)
    requires forall i :: 0 <= i < |tags| ==> tags[i] != t
    ensures Occurrences(tags, t) == 0
  {
    if tags != [] {
      OccurrencesAbsent(tags[..|tags| - 1], t);
    }
  }

  /** Every SCH and SCH-<gaps> tag is carried by an even number of records. */
  ghost predicate SchEven(tags: seq<Tag>) {
    forall t :: IsSch(t) ==> Occurrences(tags, t) % 2 == 0
  }

  /** Giving two distinct SINGLE records one common tag keeps every SCH count even. */
  lemma PairRetagEven(tags: seq<Tag>, i: nat, j: nat, v: Tag)
    requires i < |tags| && j < |tags| && i != j && tags[i] == Single && tags[j] == Single
    requires SchEven(tags)
    ensures SchEven(tags[i := v][j := v])
  {
    forall t | IsSch(t) ensures Occurrences(tags[i := v][j := v], t) % 2 == 0 {
      OccurrencesUpdate(tags, i, v, t);
      OccurrencesUpdate(tags[i := v], j, v, t);
    }
  }

  lemma GapStepEven(tags: seq<Tag>, lst: seq<Slot>, a: nat)
    requires a < |lst| && Listed(lst, |tags|) && DistinctIdx(lst) && SchEven(tags)
    ensures SchEven(GapStep(tags, lst, a))
  {
    var q := FirstGapPartner(tags, lst, a, 0);
    if q < |lst| {
      FirstGapPartnerFacts(tags, lst, a, 0);
      assert q != a;
      assert lst[a].idx != lst[q].idx;
      PairRetagEven(tags, lst[a].idx, lst[q].idx, GapTag(Dist(lst[a].seat, lst[q].seat)));
    }
  }

  lemma {:induction false} GapScanEven(tags: seq<Tag>, lst: seq<Slot>, n: nat)
    requires n <= |lst| && Listed(lst, |tags|) && DistinctIdx(lst) && SchEven(tags)
    ensures SchEven(GapScan(tags, lst, n))
  {
    if n > 0 {
      GapScanEven(tags, lst, n - 1);
      GapStepEven(GapScan(tags, lst, n - 1), lst, n - 1);
    }
  }

  lemma GapLineEven(keys: seq<SeatKey>, tags: seq<Tag>, g: RowKey, even: bool)
    requires |tags| == |keys| && SchEven(tags)
    ensures SchEven(GapLine(keys, tags, g, even))
  {
    var L := ParityList(keys, g, even);
    ParityListOnLine(keys, g, even);
    if |L| >= 2 {
      GapScanEven(tags, L, |L|);
    }
  }

  lemma {:induction false} GapRowsEven(keys: seq<SeatKey>, tags: seq<Tag>, rows: seq<RowKey>)
    requires |tags| == |keys| && SchEven(tags)
    ensures SchEven(GapRows(keys, tags, rows))
  {
    if rows != [] {
      var g := rows[|rows| - 1];
      var t0 := GapRows(keys, tags, rows[..|rows| - 1]);
      GapRowsEven(keys, tags, rows[..|rows| - 1]);
      GapLineEven(keys, t0, g, true);
      GapLineEven(keys, GapLine(keys, t0, g, true), g, false);
    }
  }

  lemma DiagStepEven(keys: seq<SeatKey>, seatMap: map<SeatKey, nat>, tags: seq<Tag>, i: nat)
    requires i < |keys| == |tags| && IndexOf(keys, seatMap) && SchEven(tags)
    ensures SchEven(DiagStep(keys, seatMap, tags, i))
  {
    if tags[i] == Single {
      var ts := Targets(keys[i]);
      var d := Probe(seatMap, tags, ts, 0);
      if d < |ts| {
        ProbeFacts(seatMap, tags, ts, 0);
        var j := seatMap[ts[d]];
        TargetsFacts(keys[i], keys[j]);
        PairRetagEven(tags, i, j, Sch);
      }
    }
  }

  lemma {:induction false} DiagScanEven(keys: seq<SeatKey>, seatMap: map<SeatKey, nat>, tags: seq<Tag>, n: nat)
    requires n <= |keys| == |tags| && IndexOf(keys, seatMap) && SchEven(tags)
    ensures SchEven(DiagScan(keys, seatMap, tags, n))
  {
    if n > 0 {
      DiagScanEven(keys, seatMap, tags, n - 1);
      DiagStepEven(keys, seatMap, DiagScan(keys, seatMap, tags, n - 1), n - 1);
    }
  }

  /** Each of "SCH" and "SCH-<gaps>" ends up on an even number of records. */
  lemma ClassifyEven(keys: seq<SeatKey>)
    ensures SchEven(Classify(keys))
  {
    SeatIndexFacts(keys, |keys|);
    var t1 := Pass1Tags(keys);
    Pass1NoSch(keys);
    forall t | IsSch(t) ensures Occurrences(t1, t) % 2 == 0 {
      OccurrencesAbsent(t1, t);
    }
    GapRowsEven(keys, t1, RowOrder(keys, |keys|));
    DiagScanEven(keys, SeatIndex(keys, |keys|), GapRows(keys, t1, RowOrder(keys, |keys|)), |keys|);
  }

  /** The three passes yield a classification: well-formed tags, pass 1's runs
      intact, every SCH-<gaps> and SCH paired, and no pairing left undone. */
  lemma ClassifyFacts(keys: seq<SeatKey>)
    ensures IsClassification(keys, Classify(keys))
  {
    ClassifyRuns(keys);
    ClassifyPaired(keys);
    ClassifySaturated(keys);
    ClassifyEven(keys);
  }

  /** `classify_together` (lines 16-131). */
  method ClassifyTogether(records: seq<SeatRecord>) returns (result: seq<Tag>)
    ensures result == Classify(KeysOf(records))
    ensures IsClassification(KeysOf(records), result)
  {
    var keys := KeysOf(records);
    result := ClassifyKeys(keys);
  }

  /** The three passes over the normalised keys. */
  method ClassifyKeys(keys: seq<SeatKey>) returns (result: seq<Tag>)
    ensures result == Classify(keys)
    ensures IsClassification(keys, result)
  {
    var seatMap, groups, order := BuildIndex(keys);
    RowOrderFacts(keys, |keys|);
    SeatIndexFacts(keys, |keys|);
    result := PassRuns(keys, groups, order);
    assert result == Pass1Tags(keys);
    result := PassGaps(keys, groups, order, result);
    result := PassDiagonal(keys, seatMap, result);
    ClassifyFacts(keys);
  }
}
