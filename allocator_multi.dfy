/** The multi-ticket path of `choose_tickets_for_order` (engine/allocator.py:215-302):
    group the candidates by their raw `(game, block, row)`, slide a window of
    `qty` seats over each group sorted by seat, keep the windows whose seat steps
    are all 2 (strict) or all 2 but one 4 (an SCH gap, when the source allows
    it), prefer strict windows, and take the first window of the highest block. */
module MultiPath {
  import opened Wrappers
  import opened Text
  import opened Sorting
  import opened SeatClassifier
  import opened AllocatorRecords

  /** `(t.game, t.block, t.row)`: the grouping key of line 222, taken raw. */
  datatype TicketRow = TicketRow(game: string, block: string, row: int)

  function RowKeyOf(t: Ticket): TicketRow {
    TicketRow(t.game, t.block, t.row)
  }

  /** `(t, i, tag)`: a group member with its candidate index and its tag. */
  datatype Member = Member(ticket: Ticket, idx: nat, tag: Tag)

  // ---------------------------------------------------------------------------
  // groups_by_key (lines 219-225)

  /** The keys of `groups_by_key` in insertion (first appearance) order. */
  function GroupOrder(cands: seq<Ticket>, n: nat): seq<TicketRow>
    requires n <= |cands|
  {
    if n == 0 then []
    else if RowKeyOf(cands[n - 1]) in GroupOrder(cands, n - 1) then GroupOrder(cands, n - 1)
    else GroupOrder(cands, n - 1) + [RowKeyOf(cands[n - 1])]
  }

  /** `groups_by_key[g]` once the first `n` candidates are in. */
  function GroupMembers(cands: seq<Ticket>, tags: seq<Tag>, g: TicketRow, n: nat): seq<Member>
    requires n <= |cands| == |tags|
  {
    if n == 0 then []
    else GroupMembers(cands, tags, g, n - 1)
         + (if RowKeyOf(cands[n - 1]) == g then [Member(cands[n - 1], n - 1, tags[n - 1])] else [])
  }

  /** `groups_by_key` once every candidate is in. */
  function TicketGroups(cands: seq<Ticket>, tags: seq<Tag>): map<TicketRow, seq<Member>>
    requires |cands| == |tags|
  {
    map g | g in GroupOrder(cands, |cands|) :: GroupMembers(cands, tags, g, |cands|)
  }

  /** The dictionary and its key order after the first `n` candidates. */
  ghost predicate GroupsState(cands: seq<Ticket>, tags: seq<Tag>, groups: map<TicketRow, seq<Member>>,
                              order: seq<TicketRow>, n: nat)
    requires n <= |cands| == |tags|
  {
    order == GroupOrder(cands, n)
    && (forall g :: g in groups <==> g in order)
    && forall g :: g in order ==> groups[g] == GroupMembers(cands, tags, g, n)
  }

  /** The loop of lines 220-225. Dafny's maps carry no order, so the dictionary's
      insertion order is kept beside it as `order`. */
  method BuildTicketGroups(cands: seq<Ticket>, tags: seq<Tag>)
    returns (groups: map<TicketRow, seq<Member>>, order: seq<TicketRow>)
    requires |cands| == |tags|
    ensures order == GroupOrder(cands, |cands|) && groups == TicketGroups(cands, tags)
  {
    groups, order := map[], [];
    for i := 0 to |cands|
      invariant GroupsState(cands, tags, groups, order, i)
    {
      groups, order := AddMember(cands, tags, groups, order, i);
    }
  }

  /** One iteration: create the key's list on first sight, then append the member. */
  method AddMember(cands: seq<Ticket>, tags: seq<Tag>, groups: map<TicketRow, seq<Member>>,
                   order: seq<TicketRow>, i: nat)
    returns (groups': map<TicketRow, seq<Member>>, order': seq<TicketRow>)
    requires i < |cands| == |tags| && GroupsState(cands, tags, groups, order, i)
    ensures GroupsState(cands, tags, groups', order', i + 1)
  {
    var t := cands[i];
    var key := RowKeyOf(t);
    groups', order' := groups, order;
    if key !in groups' {
      GroupMembersOutside(cands, tags, key, i);
      groups', order' := groups'[key := []], order' + [key];
    }
    groups' := groups'[key := groups'[key] + [Member(t, i, tags[i])]];
    forall g | g in order' && g != key
      ensures GroupMembers(cands, tags, g, i + 1) == GroupMembers(cands, tags, g, i)
    {
      assert GroupMembers(cands, tags, g, i) + [] == GroupMembers(cands, tags, g, i);
    }
  }

  /** A key not yet seen has no members. */
  lemma {:induction false} GroupMembersOutside(cands: seq<Ticket>, tags: seq<Tag>, g: TicketRow, n: nat)
    requires n <= |cands| == |tags| && g !in GroupOrder(cands, n)
    ensures GroupMembers(cands, tags, g, n) == []
  {
    if n > 0 {
      assert GroupOrder(cands, n - 1) <= GroupOrder(cands, n);
      GroupMembersOutside(cands, tags, g, n - 1);
    }
  }

  /** Each member of group `g` is the candidate at its index, carries that
      candidate's tag, and has key `g`. */
  lemma {:induction false} GroupMembersFacts(cands: seq<Ticket>, tags: seq<Tag>, g: TicketRow, n: nat)
    requires n <= |cands| == |tags|
    ensures forall m :: m in GroupMembers(cands, tags, g, n) ==>
      m.idx < n && cands[m.idx] == m.ticket && tags[m.idx] == m.tag && RowKeyOf(m.ticket) == g
  {
    if n > 0 {
      GroupMembersFacts(cands, tags, g, n - 1);
    }
  }

  /** The key order lists every key of a candidate, once. */
  lemma {:induction false} GroupOrderFacts(cands: seq<Ticket>, n: nat)
    requires n <= |cands|
    ensures forall p, q :: 0 <= p < q < |GroupOrder(cands, n)| ==> GroupOrder(cands, n)[p] != GroupOrder(cands, n)[q]
    ensures forall i :: 0 <= i < n ==> RowKeyOf(cands[i]) in GroupOrder(cands, n)
  {
    if n > 0 {
      GroupOrderFacts(cands, n - 1);
    }
  }

  /** A candidate is in the group of its key. */
  lemma {:induction false} GroupMembersComplete(cands: seq<Ticket>, tags: seq<Tag>, n: nat, i: nat)
    requires i < n <= |cands| == |tags|
    ensures Member(cands[i], i, tags[i]) in GroupMembers(cands, tags, RowKeyOf(cands[i]), n)
  {
    if i < n - 1 {
      GroupMembersComplete(cands, tags, n - 1, i);
    }
  }

  // ---------------------------------------------------------------------------
  // The window check (lines 239-274)

  /** Python's `s[start:stop]` with step 1: negative bounds count from the end,
      then both are clamped to the sequence. */
  function PySlice<T>(s: seq<T>, start: int, stop: int): (r: seq<T>)
    ensures |r| <= |s|
  {
    var lo := Clamp(if start < 0 then start + |s| else start, |s|);
    var hi := Clamp(if stop < 0 then stop + |s| else stop, |s|);
    if lo < hi then s[lo..hi] else []
  }

  function Clamp(x: int, n: nat): (r: nat)
    ensures r <= n
  {
    if x < 0 then 0 else if x > n then n else x
  }

  /** With non-negative bounds inside the sequence, the Python slice is the Dafny slice. */
  lemma PySliceInside<T>(s: seq<T>, start: nat, len: nat)
    requires start + len <= |s|
    ensures PySlice(s, start, start + len) == s[start..start + len]
  {
  }

  /** Every element of a Python slice is an element of the sequence. */
  lemma PySliceWithin<T>(s: seq<T>, start: int, stop: int)
    ensures forall x :: x in PySlice(s, start, stop) ==> x in s
  {
  }

  /** How many start positions the loop of lines 239-241 tries before it stops. */
  function ScanStop(len: nat, need: int): (r: nat)
    ensures r <= len
    ensures 1 <= need <= len ==> r + need == len + 1
    ensures need > len ==> r == 0
  {
    if need <= 0 then len else if need <= len then len - need + 1 else 0
  }

  /** `seats` of line 244. */
  function SeatsOf(ms: seq<Member>): (seats: seq<int>)
    ensures |seats| == |ms|
  {
    seq(|ms|, i requires 0 <= i < |ms| => ms[i].ticket.seat)
  }

  /** `diffs` of line 247: the steps between consecutive seats. */
  function Diffs(seats: seq<int>): (ds: seq<int>)
    ensures |seats| >= 1 ==> |ds| == |seats| - 1
    ensures |seats| <= 1 ==> ds == []
  {
    if |seats| <= 1 then [] else seq(|seats| - 1, i requires 0 <= i < |seats| - 1 => seats[i + 1] - seats[i])
  }

  /** The outcome of the loop of lines 253-260 over `ds`: `None` when a step is
      neither 2 nor 4, otherwise the number of 4s (`sch_gaps`). */
  function GapCount(ds: seq<int>): Option<nat>
  {
    if ds == [] then Some(0)
    else match GapCount(ds[..|ds| - 1])
      case None => None
      case Some(c) =>
        var d := ds[|ds| - 1];
        if d == 2 then Some(c) else if d == 4 then Some(c + 1) else None
  }

  /** The number of 4s among the steps. */
  function Fours(ds: seq<int>): nat {
    if ds == [] then 0 else Fours(ds[..|ds| - 1]) + (if ds[|ds| - 1] == 4 then 1 else 0)
  }

  /** The window check accepts exactly the step lists made of 2s and 4s, and
      counts the 4s. */
  lemma {:induction false} GapCountMeaning(ds: seq<int>)
    ensures GapCount(ds).Some? <==> forall i :: 0 <= i < |ds| ==> ds[i] == 2 || ds[i] == 4
    ensures GapCount(ds).Some? ==> GapCount(ds).value == Fours(ds)
  {
    if ds != [] {
      var init := ds[..|ds| - 1];
      GapCountMeaning(init);
      assert forall i :: 0 <= i < |init| ==> init[i] == ds[i];
    }
  }

  lemma {:induction false} FoursZero(ds: seq<int>)
    ensures Fours(ds) == 0 <==> forall i :: 0 <= i < |ds| ==> ds[i] != 4
  {
    if ds != [] {
      var init := ds[..|ds| - 1];
      FoursZero(init);
      assert forall i :: 0 <= i < |init| ==> init[i] == ds[i];
    }
  }

  /** Once a prefix of the steps is rejected, so is every extension. */
  lemma {:induction false} GapCountRejectsExtension(ds: seq<int>, n: nat)
    requires n <= |ds| && GapCount(ds[..n]) == None
    ensures GapCount(ds) == None
  {
    if n < |ds| {
      assert ds[..|ds| - 1][..n] == ds[..n];
      GapCountRejectsExtension(ds[..|ds| - 1], n);
    } else {
      assert ds[..n] == ds;
    }
  }

  /** Lines 251-260: walk the steps, counting 4s, and stop at the first bad one. */
  method CountGaps(ds: seq<int>) returns (valid: bool, schGaps: nat)
    ensures valid <==> GapCount(ds).Some?
    ensures valid ==> schGaps == GapCount(ds).value
  {
    valid, schGaps := true, 0;
    var i := 0;
    while i < |ds|
      invariant 0 <= i <= |ds| && GapCount(ds[..i]) == Some(schGaps)
    {
      assert ds[..i + 1][..i] == ds[..i];
      var d := ds[i];
      if d == 2 {
      } else if d == 4 {
        schGaps := schGaps + 1;
      } else {
        valid := false;
        GapCountRejectsExtension(ds, i + 1);
        break;
      }
      i := i + 1;
    }
    if valid {
      assert ds[..i] == ds;
    }
  }

  /** Where a window goes: strictly adjacent, with one SCH gap, or nowhere. */
  datatype Fit = Strict | WithGap | Rejected

  /** Lines 262-274. */
  function FitOf(seats: seq<int>, allowSch: bool): Fit {
    match GapCount(Diffs(seats))
    case None => Rejected
    case Some(c) => if c == 0 then Strict else if c == 1 && allowSch then WithGap else Rejected
  }

  /** Each step is the difference of two neighbouring seats. */
  lemma DiffsAt(seats: seq<int>)
    ensures forall i :: 0 <= i < |Diffs(seats)| ==> Diffs(seats)[i] == seats[i + 1] - seats[i]
  {
  }

  /** A window is strict exactly when every seat step is 2. */
  lemma FitStrictMeaning(seats: seq<int>, allowSch: bool)
    ensures FitOf(seats, allowSch) == Strict <==> forall i :: 0 <= i < |seats| - 1 ==> seats[i + 1] - seats[i] == 2
  {
    var ds := Diffs(seats);
    DiffsAt(seats);
    GapCountMeaning(ds);
    FoursZero(ds);
  }

  /** A window has an SCH gap exactly when the source allows SCH and the seat
      steps are 2s and 4s with exactly one 4. */
  lemma FitGapMeaning(seats: seq<int>, allowSch: bool)
    ensures FitOf(seats, allowSch) == WithGap <==>
      allowSch && (forall i :: 0 <= i < |seats| - 1 ==> seats[i + 1] - seats[i] == 2 || seats[i + 1] - seats[i] == 4)
      && Fours(Diffs(seats)) == 1
  {
    var ds := Diffs(seats);
    DiffsAt(seats);
    GapCountMeaning(ds);
  }

  /** Lines 243-274 for one window: the fit the checks give it. */
  method WindowFit(window: seq<Member>, allowSch: bool) returns (fit: Fit)
    ensures fit == FitOf(SeatsOf(window), allowSch)
  {
    var seats := SeatsOf(window);
    var diffs := Diffs(seats);
    var valid, schGaps := CountGaps(diffs);
    if !valid || schGaps > 1 {
      fit := Rejected;
    } else if schGaps == 0 {
      fit := Strict;
    } else if allowSch {
      fit := WithGap;
    } else {
      fit := Rejected;
    }
  }

  // ---------------------------------------------------------------------------
  // Collecting the windows (lines 230-274)

  /** A `(key, window)` entry of `valid_groups_strict` or `valid_groups_sch`. */
  datatype Window = Window(key: TicketRow, members: seq<Member>)

  /** The two lists of valid windows. */
  datatype Found = Found(strict: seq<Window>, sch: seq<Window>)

  function MemberSeat(m: Member): (int, int) {
    (m.ticket.seat, 0)
  }

  /** The windows `sorted[start:start + need]` at each start position the loop reaches. */
  function Slices(sorted: seq<Member>, need: int): (ws: seq<seq<Member>>)
    ensures |ws| == ScanStop(|sorted|, need)
  {
    seq(ScanStop(|sorted|, need), i requires 0 <= i < ScanStop(|sorted|, need) => PySlice(sorted, i, i + need))
  }

  /** The fit of each window. */
  function FitsOf(ws: seq<seq<Member>>, allowSch: bool): (fs: seq<Fit>)
    ensures |fs| == |ws|
  {
    seq(|ws|, i requires 0 <= i < |ws| => FitOf(SeatsOf(ws[i]), allowSch))
  }

  /** The windows kept among the first `n`, each in the list its fit names. */
  function ScanFrom(key: TicketRow, ws: seq<seq<Member>>, fs: seq<Fit>, n: nat): Found
    requires n <= |ws| == |fs|
  {
    if n == 0 then Found([], [])
    else
      var f := ScanFrom(key, ws, fs, n - 1);
      match fs[n - 1]
      case Strict => Found(f.strict + [Window(key, ws[n - 1])], f.sch)
      case WithGap => Found(f.strict, f.sch + [Window(key, ws[n - 1])])
      case Rejected => f
  }

  /** The windows one group contributes: its members sorted by seat, then scanned. */
  function GroupFound(key: TicketRow, members: seq<Member>, need: int, allowSch: bool): Found {
    var ws := Slices(SortByKey(members, MemberSeat), need);
    ScanFrom(key, ws, FitsOf(ws, allowSch), |ws|)
  }

  /** What each group contributes, in the dictionary's order. */
  function GroupsFound(groups: map<TicketRow, seq<Member>>, order: seq<TicketRow>, need: int,
                       allowSch: bool): (hs: seq<Found>)
    requires forall g :: g in order ==> g in groups
    ensures |hs| == |order|
  {
    seq(|order|, i requires 0 <= i < |order| => GroupFound(order[i], groups[order[i]], need, allowSch))
  }

  /** The lists of the first `n` groups, joined. */
  function Concat(hs: seq<Found>, n: nat): Found
    requires n <= |hs|
  {
    if n == 0 then Found([], [])
    else
      var f := Concat(hs, n - 1);
      Found(f.strict + hs[n - 1].strict, f.sch + hs[n - 1].sch)
  }

  /** The sliding window over one group (lines 235-274). */
  method ScanGroup(key: TicketRow, members: seq<Member>, need: int, allowSch: bool)
    returns (strict: seq<Window>, sch: seq<Window>)
    ensures Found(strict, sch) == GroupFound(key, members, need, allowSch)
  {
    var sorted := SortByKey(members, MemberSeat);
    ghost var ws := Slices(sorted, need);
    ghost var fs := FitsOf(ws, allowSch);
    strict, sch := [], [];
    var start := 0;
    while start < |sorted|
      invariant 0 <= start <= |ws|
      invariant Found(strict, sch) == ScanFrom(key, ws, fs, start)
    {
      if start + need > |sorted| {
        break;
      }
      strict, sch := ScanStep(key, sorted, ws, fs, need, allowSch, start, strict, sch);
      start := start + 1;
    }
  }

  /** One start position (lines 242-274): check the window and file it by its fit. */
  method ScanStep(key: TicketRow, sorted: seq<Member>, ghost ws: seq<seq<Member>>, ghost fs: seq<Fit>,
                  need: int, allowSch: bool, start: nat, strict: seq<Window>, sch: seq<Window>)
    returns (strict': seq<Window>, sch': seq<Window>)
    requires ws == Slices(sorted, need) && fs == FitsOf(ws, allowSch) && start < |ws|
    requires Found(strict, sch) == ScanFrom(key, ws, fs, start)
    ensures Found(strict', sch') == ScanFrom(key, ws, fs, start + 1)
  {
    var window := PySlice(sorted, start, start + need);
    assert window == ws[start];
    var fit := WindowFit(window, allowSch);
    assert fit == fs[start];
    strict', sch' := strict, sch;
    if fit == Strict {
      strict' := strict' + [Window(key, window)];
    } else if fit == WithGap {
      sch' := sch' + [Window(key, window)];
    }
  }

  /** The loop over the groups (line 233). */
  method CollectWindows(groups: map<TicketRow, seq<Member>>, order: seq<TicketRow>, need: int, allowSch: bool)
    returns (strict: seq<Window>, sch: seq<Window>)
    requires forall g :: g in order ==> g in groups
    ensures Found(strict, sch) == Concat(GroupsFound(groups, order, need, allowSch), |order|)
  {
    ghost var hs := GroupsFound(groups, order, need, allowSch);
    strict, sch := [], [];
    for k := 0 to |order|
      invariant Found(strict, sch) == Concat(hs, k)
    {
      var s1, s2 := ScanGroup(order[k], groups[order[k]], need, allowSch);
      assert Found(s1, s2) == hs[k];
      strict, sch := strict + s1, sch + s2;
    }
  }

  /** A kept window is one of the tried windows, and its fit is the list's. */
  predicate Listed(w: Window, key: TicketRow, ws: seq<seq<Member>>, fs: seq<Fit>, fit: Fit)
    requires |ws| == |fs|
  {
    w.key == key && exists i :: 0 <= i < |ws| && ws[i] == w.members && fs[i] == fit
  }

  lemma {:induction false} ScanFromFacts(key: TicketRow, ws: seq<seq<Member>>, fs: seq<Fit>, n: nat)
    requires n <= |ws| == |fs|
    ensures forall w :: w in ScanFrom(key, ws, fs, n).strict ==> Listed(w, key, ws, fs, Strict)
    ensures forall w :: w in ScanFrom(key, ws, fs, n).sch ==> Listed(w, key, ws, fs, WithGap)
  {
    if n > 0 {
      ScanFromFacts(key, ws, fs, n - 1);
    }
  }

  /** A window found in `group` for key `key`: its members come from the group,
      and with a non-negative `need` there are exactly `need` of them. */
  predicate WindowFrom(w: Window, key: TicketRow, group: seq<Member>, need: int) {
    w.key == key && (forall m :: m in w.members ==> m in group) && (need >= 0 ==> |w.members| == need)
  }

  /** Each window tried in a group holds members of the group, `need` of them when
      `need` is not negative. */
  lemma SliceFacts(members: seq<Member>, need: int, i: nat)
    requires i < |Slices(SortByKey(members, MemberSeat), need)|
    ensures var w := Slices(SortByKey(members, MemberSeat), need)[i];
      (forall m :: m in w ==> m in members) && (need >= 0 ==> |w| == need)
  {
    var sorted := SortByKey(members, MemberSeat);
    PySliceWithin(sorted, i, i + need);
    if need >= 0 {
      PySliceInside(sorted, i, need);
    }
    forall m | m in sorted ensures m in members {
      assert m in multiset(sorted);
    }
  }

  /** The windows a group contributes come from the group and have the fit of their list. */
  lemma GroupFoundFacts(key: TicketRow, members: seq<Member>, need: int, allowSch: bool)
    ensures forall w :: w in GroupFound(key, members, need, allowSch).strict ==>
      WindowFrom(w, key, members, need) && FitOf(SeatsOf(w.members), allowSch) == Strict
    ensures forall w :: w in GroupFound(key, members, need, allowSch).sch ==>
      WindowFrom(w, key, members, need) && FitOf(SeatsOf(w.members), allowSch) == WithGap
  {
    var ws := Slices(SortByKey(members, MemberSeat), need);
    var fs := FitsOf(ws, allowSch);
    ScanFromFacts(key, ws, fs, |ws|);
    forall w | Listed(w, key, ws, fs, Strict) || Listed(w, key, ws, fs, WithGap)
      ensures WindowFrom(w, key, members, need) && FitOf(SeatsOf(w.members), allowSch) != Rejected
    {
      var i :| 0 <= i < |ws| && ws[i] == w.members && fs[i] != Rejected;
      SliceFacts(members, need, i);
    }
  }

  lemma {:induction false} ConcatFacts(hs: seq<Found>, n: nat)
    requires n <= |hs|
    ensures forall w :: w in Concat(hs, n).strict ==> exists i :: 0 <= i < n && w in hs[i].strict
    ensures forall w :: w in Concat(hs, n).sch ==> exists i :: 0 <= i < n && w in hs[i].sch
  {
    if n > 0 {
      ConcatFacts(hs, n - 1);
    }
  }

  /** Once a group contributes a strict window, the joined list has one. */
  lemma {:induction false} ConcatGrows(hs: seq<Found>, m: nat, n: nat)
    requires 1 <= m <= n <= |hs| && hs[m - 1].strict != []
    ensures Concat(hs, n).strict != []
  {
    if m < n {
      ConcatGrows(hs, m, n - 1);
    }
  }

  /** A window of the collected lists belongs to one group, from which its members come. */
  predicate WindowOfGroups(w: Window, groups: map<TicketRow, seq<Member>>, need: int) {
    w.key in groups && WindowFrom(w, w.key, groups[w.key], need)
  }

  lemma CollectFacts(groups: map<TicketRow, seq<Member>>, order: seq<TicketRow>, need: int, allowSch: bool)
    requires forall g :: g in order ==> g in groups
    ensures forall w :: w in Concat(GroupsFound(groups, order, need, allowSch), |order|).strict ==>
      WindowOfGroups(w, groups, need) && FitOf(SeatsOf(w.members), allowSch) == Strict
    ensures forall w :: w in Concat(GroupsFound(groups, order, need, allowSch), |order|).sch ==>
      WindowOfGroups(w, groups, need) && FitOf(SeatsOf(w.members), allowSch) == WithGap
  {
    var hs := GroupsFound(groups, order, need, allowSch);
    ConcatFacts(hs, |order|);
    forall i | 0 <= i < |order|
      ensures forall w :: w in hs[i].strict ==>
        WindowOfGroups(w, groups, need) && FitOf(SeatsOf(w.members), allowSch) == Strict
      ensures forall w :: w in hs[i].sch ==>
        WindowOfGroups(w, groups, need) && FitOf(SeatsOf(w.members), allowSch) == WithGap
    {
      GroupFoundFacts(order[i], groups[order[i]], need, allowSch);
    }
  }

  // ---------------------------------------------------------------------------
  // The choice (lines 277-302)

  /** `group_priority`: the block's number, larger first. */
  function WindowKey(w: Window): (int, int) {
    (-(EmbeddedNumber(w.key.block) as int), 0)
  }

  function TicketsOf(ms: seq<Member>): (ts: seq<Ticket>)
    ensures |ts| == |ms|
  {
    seq(|ms|, i requires 0 <= i < |ms| => ms[i].ticket)
  }

  /** Line 277: the strict windows if there are any, else the SCH ones. */
  function Preferred(f: Found): seq<Window> {
    if f.strict != [] then f.strict else f.sch
  }

  /** All windows of the candidates, in the order the loops find them. */
  function AllFound(cands: seq<Ticket>, tags: seq<Tag>, need: int, allowSch: bool): Found
    requires |cands| == |tags|
  {
    var order := GroupOrder(cands, |cands|);
    Concat(GroupsFound(TicketGroups(cands, tags), order, need, allowSch), |order|)
  }

  /** `valid_groups[0]` after the stable sort of line 292. */
  function Best(valid: seq<Window>): Window
    requires valid != []
  {
    SortByKey(valid, WindowKey)[0]
  }

  /** The first window of the highest block number wins. */
  lemma BestFacts(valid: seq<Window>)
    requires valid != []
    ensures exists i :: (0 <= i < |valid| && valid[i] == Best(valid)
      && (forall j :: 0 <= j < |valid| ==> EmbeddedNumber(valid[j].key.block) <= EmbeddedNumber(Best(valid).key.block))
      && (forall j :: 0 <= j < i ==> EmbeddedNumber(valid[j].key.block) != EmbeddedNumber(Best(valid).key.block)))
  {
    SortHeadIsFirstMinimal(valid, WindowKey);
  }

  /** The window `valid_groups[0]` names, if any window was found. */
  function Chosen(f: Found): Option<Window> {
    var valid := Preferred(f);
    if valid == [] then None else Some(Best(valid))
  }

  /** Lines 276-302 once the two lists are known. */
  function Decide(f: Found, need: int): AssignmentResult {
    match Chosen(f)
    case None => AssignmentResult(NotAvailable, [], NoGroupWithAdjacentSeats(need))
    case Some(w) =>
      var chosen := TicketsOf(w.members);
      if |chosen| == need then AssignmentResult(Assigned, chosen, AllTogetherOk(need))
      else AssignmentResult(NotAvailable, [], InsufficientAdjacent(need, |chosen|))
  }

  /** The chosen window of the candidates, if any window was found. */
  function ChosenWindow(cands: seq<Ticket>, tags: seq<Tag>, need: int, allowSch: bool): Option<Window>
    requires |cands| == |tags|
  {
    Chosen(AllFound(cands, tags, need, allowSch))
  }

  /** Lines 215-302 on the sorted, tagged candidates; `need` is the order's quantity. */
  function MultiDecision(cands: seq<Ticket>, tags: seq<Tag>, need: int, allowSch: bool): AssignmentResult
    requires |cands| == |tags|
  {
    Decide(AllFound(cands, tags, need, allowSch), need)
  }

  /** Lines 215-302. */
  method ChooseWindow(cands: seq<Ticket>, tags: seq<Tag>, need: int, allowSch: bool) returns (r: AssignmentResult)
    requires |cands| == |tags|
    ensures r == MultiDecision(cands, tags, need, allowSch)
  {
    var groups, order := BuildTicketGroups(cands, tags);
    var strict, sch := CollectWindows(groups, order, need, allowSch);
    r := DecideWindows(strict, sch, need);
  }

  /** Lines 276-302: prefer the strict list, sort by block number, take the first window. */
  method DecideWindows(strict: seq<Window>, sch: seq<Window>, need: int) returns (r: AssignmentResult)
    ensures r == Decide(Found(strict, sch), need)
  {
    var validGroups := if strict != [] then strict else sch;
    if validGroups == [] {
      return AssignmentResult(NotAvailable, [], NoGroupWithAdjacentSeats(need));
    }
    var best := SortByKey(validGroups, WindowKey)[0];
    var chosen := TakeTickets(best.members);
    if |chosen| == need {
      return AssignmentResult(Assigned, chosen, AllTogetherOk(need));
    }
    return AssignmentResult(NotAvailable, [], InsufficientAdjacent(need, |chosen|));
  }

  /** Lines 294-296: the tickets of the chosen window, in its order. */
  method TakeTickets(members: seq<Member>) returns (chosen: seq<Ticket>)
    ensures chosen == TicketsOf(members)
  {
    chosen := [];
    for k := 0 to |members|
      invariant chosen == TicketsOf(members[..k])
    {
      chosen := chosen + [members[k].ticket];
    }
    assert members[..|members|] == members;
  }

  // ---------------------------------------------------------------------------
  // Properties of the choice

  /** The chosen window is one of the preferred list, belongs to a group, and has
      the fit of that list. */
  lemma ChosenFacts(cands: seq<Ticket>, tags: seq<Tag>, need: int, allowSch: bool)
    requires |cands| == |tags|
    ensures var f := AllFound(cands, tags, need, allowSch);
      match ChosenWindow(cands, tags, need, allowSch)
      case None => f.strict == [] && f.sch == []
      case Some(w) =>
        w in Preferred(f) && WindowOfGroups(w, TicketGroups(cands, tags), need)
        && FitOf(SeatsOf(w.members), allowSch) == (if f.strict != [] then Strict else WithGap)
  {
    var order := GroupOrder(cands, |cands|);
    CollectFacts(TicketGroups(cands, tags), order, need, allowSch);
    var valid := Preferred(AllFound(cands, tags, need, allowSch));
    if valid != [] {
      BestFacts(valid);
    }
  }

  /** Strictly adjacent windows win over SCH-gap windows, and among the preferred
      windows the chosen one has the largest block number, ties going to the one
      found first. */
  lemma ChosenIsBest(cands: seq<Ticket>, tags: seq<Tag>, need: int, allowSch: bool)
    requires |cands| == |tags|
    ensures var f := AllFound(cands, tags, need, allowSch);
      var valid := Preferred(f);
      match ChosenWindow(cands, tags, need, allowSch)
      case None => f.strict == [] && f.sch == []
      case Some(w) =>
        (f.strict != [] ==> w in f.strict)
        && (exists i :: (0 <= i < |valid| && valid[i] == w
           && (forall j :: 0 <= j < |valid| ==> EmbeddedNumber(valid[j].key.block) <= EmbeddedNumber(w.key.block))
           && (forall j :: 0 <= j < i ==> EmbeddedNumber(valid[j].key.block) != EmbeddedNumber(w.key.block))))
  {
    var valid := Preferred(AllFound(cands, tags, need, allowSch));
    if valid != [] {
      BestFacts(valid);
    }
  }

  /** The tickets of a window of the groups are candidates of the window's key. */
  lemma WindowTickets(cands: seq<Ticket>, tags: seq<Tag>, w: Window, need: int)
    requires |cands| == |tags| && WindowOfGroups(w, TicketGroups(cands, tags), need)
    ensures forall t :: t in TicketsOf(w.members) ==> t in cands && RowKeyOf(t) == w.key
  {
    GroupMembersFacts(cands, tags, w.key, |cands|);
    forall t | t in TicketsOf(w.members) ensures t in cands && RowKeyOf(t) == w.key {
      var i :| 0 <= i < |w.members| && TicketsOf(w.members)[i] == t;
      assert w.members[i] in GroupMembers(cands, tags, w.key, |cands|);
    }
  }

  function TicketSeats(ts: seq<Ticket>): (seats: seq<int>)
    ensures |seats| == |ts|
  {
    seq(|ts|, i requires 0 <= i < |ts| => ts[i].seat)
  }

  /** `chosen` is `need` candidates of one `(game, block, row)` in seat order,
      every step 2 or 4, at most one 4, and a 4 only when SCH is allowed. */
  predicate TogetherAssignment(chosen: seq<Ticket>, cands: seq<Ticket>, need: int, allowSch: bool) {
    |chosen| == need
    && (forall t :: t in chosen ==> t in cands && RowKeyOf(t) == RowKeyOf(chosen[0]))
    && (forall i :: 0 <= i < |chosen| - 1 ==>
          chosen[i + 1].seat - chosen[i].seat == 2 || chosen[i + 1].seat - chosen[i].seat == 4)
    && Fours(Diffs(TicketSeats(chosen))) <= 1
    && (Fours(Diffs(TicketSeats(chosen))) == 1 ==> allowSch)
  }

  /** An assignment on this path is a together assignment of the candidates;
      anything else carries no tickets. */
  lemma MultiAssigned(cands: seq<Ticket>, tags: seq<Tag>, need: int, allowSch: bool)
    requires |cands| == |tags|
    ensures var r := MultiDecision(cands, tags, need, allowSch);
      (r.status != Assigned ==> r.tickets == [] && r.status == NotAvailable)
      && (r.status == Assigned ==> TogetherAssignment(r.tickets, cands, need, allowSch))
      && (r.reason.NoGroupWithAdjacentSeats? || r.reason.AllTogetherOk? || r.reason.InsufficientAdjacent?)
  {
    ChosenFacts(cands, tags, need, allowSch);
    var c := ChosenWindow(cands, tags, need, allowSch);
    if c.Some? && |c.value.members| == need {
      WindowAssignment(cands, tags, c.value, need, allowSch);
    }
  }

  /** The tickets of a fitting window of `need` members of the groups form a together assignment. */
  lemma WindowAssignment(cands: seq<Ticket>, tags: seq<Tag>, w: Window, need: int, allowSch: bool)
    requires |cands| == |tags| && WindowOfGroups(w, TicketGroups(cands, tags), need)
    requires FitOf(SeatsOf(w.members), allowSch) != Rejected && |w.members| == need
    ensures TogetherAssignment(TicketsOf(w.members), cands, need, allowSch)
  {
    WindowTickets(cands, tags, w, need);
    AssignedSeats(w.members, allowSch);
  }

  /** The seats of a window that fits, read off its tickets. */
  lemma AssignedSeats(ms: seq<Member>, allowSch: bool)
    requires FitOf(SeatsOf(ms), allowSch) != Rejected
    ensures var ts := TicketsOf(ms);
      (forall i :: 0 <= i < |ts| - 1 ==> ts[i + 1].seat - ts[i].seat == 2 || ts[i + 1].seat - ts[i].seat == 4)
      && Fours(Diffs(TicketSeats(ts))) <= 1
      && (Fours(Diffs(TicketSeats(ts))) == 1 ==> allowSch)
  {
    var seats := SeatsOf(ms);
    var ds := Diffs(seats);
    var ts := TicketsOf(ms);
    assert TicketSeats(ts) == seats;
    assert GapCount(ds).Some?;
    GapCountMeaning(ds);
    DiffsAt(seats);
    forall i | 0 <= i < |ts| - 1
      ensures ts[i + 1].seat - ts[i].seat == 2 || ts[i + 1].seat - ts[i].seat == 4
    {
      assert ds[i] == seats[i + 1] - seats[i];
    }
  }

  /** A valid window always has `need` members when `need` is not negative, so
      line 302 is reached only for a negative quantity: a negative quantity is
      never assigned, and a zero quantity with any candidate is assigned no tickets. */
  lemma MultiQuantity(cands: seq<Ticket>, tags: seq<Tag>, need: int, allowSch: bool)
    requires |cands| == |tags|
    ensures var r := MultiDecision(cands, tags, need, allowSch);
      (need >= 1 ==> (r.status == Assigned <==> Preferred(AllFound(cands, tags, need, allowSch)) != []))
      && (need >= 0 ==> !r.reason.InsufficientAdjacent?)
      && (need < 0 ==> r.status == NotAvailable)
      && (need == 0 && cands != [] ==> r == AssignmentResult(Assigned, [], AllTogetherOk(0)))
  {
    ChosenFacts(cands, tags, need, allowSch);
    if need == 0 && cands != [] {
      ZeroNeedFindsWindow(cands, tags, allowSch);
    }
  }

  /** With `need == 0` every start position yields the empty window, which is strict. */
  lemma ZeroNeedFindsWindow(cands: seq<Ticket>, tags: seq<Tag>, allowSch: bool)
    requires |cands| == |tags| && cands != []
    ensures AllFound(cands, tags, 0, allowSch).strict != []
  {
    var order := GroupOrder(cands, |cands|);
    var groups := TicketGroups(cands, tags);
    var p := FirstGroup(cands, tags);
    var hs := GroupsFound(groups, order, 0, allowSch);
    ZeroNeedGroup(order[p], groups[order[p]], allowSch);
    assert hs[p] == GroupFound(order[p], groups[order[p]], 0, allowSch);
    ConcatGrows(hs, p + 1, |order|);
  }

  /** Some group is not empty when there are candidates. */
  lemma FirstGroup(cands: seq<Ticket>, tags: seq<Tag>) returns (p: nat)
    requires |cands| == |tags| && cands != []
    ensures p < |GroupOrder(cands, |cands|)| && TicketGroups(cands, tags)[GroupOrder(cands, |cands|)[p]] != []
  {
    var order := GroupOrder(cands, |cands|);
    GroupOrderFacts(cands, |cands|);
    var key := RowKeyOf(cands[0]);
    p :| 0 <= p < |order| && order[p] == key;
    GroupMembersComplete(cands, tags, |cands|, 0);
  }

  lemma ZeroNeedGroup(key: TicketRow, members: seq<Member>, allowSch: bool)
    requires members != []
    ensures GroupFound(key, members, 0, allowSch).strict != []
  {
    var sorted := SortByKey(members, MemberSeat);
    var ws := Slices(sorted, 0);
    var fs := FitsOf(ws, allowSch);
    assert |ws| == |sorted| == |members| >= 1;
    assert ws[0] == PySlice(sorted, 0, 0) == [];
    assert Diffs(SeatsOf([])) == [];
    assert fs[0] == Strict;
    ScanFromGrows(key, ws, fs, 1, |ws|);
  }

  lemma {:induction false} ScanFromGrows(key: TicketRow, ws: seq<seq<Member>>, fs: seq<Fit>, m: nat, n: nat)
    requires 1 <= m <= n <= |ws| == |fs| && fs[m - 1] == Strict
    ensures ScanFrom(key, ws, fs, n).strict != []
  {
    if m < n {
      ScanFromGrows(key, ws, fs, m, n - 1);
    }
  }

  // ---------------------------------------------------------------------------
  // No fitting window is missed

  /** Every tried window with a fit is kept, in the list its fit names. */
  lemma {:induction false} ScanFromComplete(key: TicketRow, ws: seq<seq<Member>>, fs: seq<Fit>, n: nat, i: nat)
    requires i < n <= |ws| == |fs|
    ensures fs[i] == Strict ==> Window(key, ws[i]) in ScanFrom(key, ws, fs, n).strict
    ensures fs[i] == WithGap ==> Window(key, ws[i]) in ScanFrom(key, ws, fs, n).sch
  {
    if i < n - 1 {
      ScanFromComplete(key, ws, fs, n - 1, i);
    }
  }

  /** Joining keeps every window of every group. */
  lemma {:induction false} ConcatComplete(hs: seq<Found>, n: nat, i: nat, w: Window)
    requires i < n <= |hs|
    ensures w in hs[i].strict ==> w in Concat(hs, n).strict
    ensures w in hs[i].sch ==> w in Concat(hs, n).sch
  {
    if i < n - 1 {
      ConcatComplete(hs, n - 1, i, w);
    }
  }

  /** Every run of `need` consecutive members of a seat-sorted group is tried,
      and kept when it fits. */
  lemma GroupFoundComplete(key: TicketRow, members: seq<Member>, need: int, allowSch: bool, s: nat)
    requires 1 <= need && s + need <= |members|
    ensures var w := SortByKey(members, MemberSeat)[s..s + need];
      (FitOf(SeatsOf(w), allowSch) == Strict ==> Window(key, w) in GroupFound(key, members, need, allowSch).strict)
      && (FitOf(SeatsOf(w), allowSch) == WithGap ==> Window(key, w) in GroupFound(key, members, need, allowSch).sch)
  {
    SliceComplete(key, SortByKey(members, MemberSeat), need, allowSch, s);
  }

  lemma SliceComplete(key: TicketRow, sorted: seq<Member>, need: int, allowSch: bool, s: nat)
    requires 1 <= need && s + need <= |sorted|
    ensures var ws := Slices(sorted, need); var fs := FitsOf(ws, allowSch); var w := sorted[s..s + need];
      (FitOf(SeatsOf(w), allowSch) == Strict ==> Window(key, w) in ScanFrom(key, ws, fs, |ws|).strict)
      && (FitOf(SeatsOf(w), allowSch) == WithGap ==> Window(key, w) in ScanFrom(key, ws, fs, |ws|).sch)
  {
    var ws := Slices(sorted, need);
    var fs := FitsOf(ws, allowSch);
    PySliceInside(sorted, s, need);
    assert ws[s] == sorted[s..s + need];
    assert fs[s] == FitOf(SeatsOf(ws[s]), allowSch);
    ScanFromComplete(key, ws, fs, |ws|, s);
  }

  /** Completeness of lines 230-302: for every group of the candidates and every
      run of `need >= 1` consecutive members of that group in seat order, a strict
      run is among the strict windows, a run with one SCH gap is among the SCH
      windows, and either way the order is assigned. */
  lemma WindowFound(cands: seq<Ticket>, tags: seq<Tag>, need: int, allowSch: bool, g: TicketRow, s: nat)
    requires |cands| == |tags| && g in GroupOrder(cands, |cands|) && 1 <= need
    requires s + need <= |TicketGroups(cands, tags)[g]|
    ensures var w := SortByKey(TicketGroups(cands, tags)[g], MemberSeat)[s..s + need];
      (FitOf(SeatsOf(w), allowSch) == Strict ==> Window(g, w) in AllFound(cands, tags, need, allowSch).strict)
      && (FitOf(SeatsOf(w), allowSch) == WithGap ==> Window(g, w) in AllFound(cands, tags, need, allowSch).sch)
      && (FitOf(SeatsOf(w), allowSch) != Rejected ==> MultiDecision(cands, tags, need, allowSch).status == Assigned)
  {
    var order := GroupOrder(cands, |cands|);
    var groups := TicketGroups(cands, tags);
    var w := SortByKey(groups[g], MemberSeat)[s..s + need];
    var hs := GroupsFound(groups, order, need, allowSch);
    var p :| 0 <= p < |order| && order[p] == g;
    assert hs[p] == GroupFound(g, groups[g], need, allowSch);
    GroupFoundComplete(g, groups[g], need, allowSch, s);
    ConcatComplete(hs, |order|, p, Window(g, w));
    MultiQuantity(cands, tags, need, allowSch);
  }

  /** Lines 251-260 reject any window with two consecutive seats that are not 2
      or 4 apart; in particular no window holds both copies of a seat listed
      twice, since their step is 0. */
  lemma BadStepRejected(seats: seq<int>, allowSch: bool, i: nat)
    requires i + 1 < |seats| && seats[i + 1] - seats[i] != 2 && seats[i + 1] - seats[i] != 4
    ensures FitOf(seats, allowSch) == Rejected
  {
    var ds := Diffs(seats);
    DiffsAt(seats);
    GapCountMeaning(ds);
    assert ds[i] == seats[i + 1] - seats[i];
  }
}
