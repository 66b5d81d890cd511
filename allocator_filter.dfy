/** The first half of `choose_tickets_for_order` (engine/allocator.py:106-167):
    the allowed-block set with TixStock translations, the filter that sorts every
    ticket into one of four outcomes while counting the failures, the
    block-priority table, and the candidate sort key. */
module CandidateFilter {
  import opened Wrappers
  import opened Text
  import opened Sorting
  import opened AllocatorHelpers
  import opened AllocatorRecords

  // ---------------------------------------------------------------------------
  // allowed_blocks_set (lines 106-111)

  /** `translate_block_for_tixstock` for one source, as a function of the block. */
  function Translator(source: string): string -> seq<string> {
    b => TranslateBlock(b, source)
  }

  /** Each block's translations under `translate`, in the order of the list. */
  function Translations(blocks: seq<string>, translate: string -> seq<string>): (tss: seq<seq<string>>)
    ensures |tss| == |blocks|
  {
    seq(|blocks|, i requires 0 <= i < |blocks| => translate(blocks[i]))
  }

  /** Each allowed block's translations, in the order of the allowed list. */
  function TranslationsOf(blocks: seq<string>, source: string): (tss: seq<seq<string>>)
    ensures |tss| == |blocks|
    ensures forall i :: 0 <= i < |blocks| ==> tss[i] == TranslateBlock(blocks[i], source)
  {
    Translations(blocks, Translator(source))
  }

  /** The set entries a list of translations contributes, upper-cased and stripped. */
  function StrippedKeys(ts: seq<string>): set<string> {
    set t | t in ts :: Strip(Upper(t))
  }

  /** The union of the entries of the first `n` translation lists. */
  function UnionOfKeys(tss: seq<seq<string>>, n: nat): set<string>
    requires n <= |tss|
  {
    if n == 0 then {} else UnionOfKeys(tss, n - 1) + StrippedKeys(tss[n - 1])
  }

  /** `allowed_blocks_set`. */
  function AllowedSet(blocks: seq<string>, source: string): set<string> {
    UnionOfKeys(TranslationsOf(blocks, source), |blocks|)
  }

  method BuildAllowedSet(blocks: seq<string>, source: string) returns (allowed: set<string>)
    ensures allowed == AllowedSet(blocks, source)
  {
    allowed := UnionOfTranslations(blocks, Translator(source));
  }

  /** The loop of lines 108-111, with the translation passed in. */
  method UnionOfTranslations(blocks: seq<string>, translate: string -> seq<string>) returns (allowed: set<string>)
    ensures allowed == UnionOfKeys(Translations(blocks, translate), |blocks|)
  {
    ghost var tss := Translations(blocks, translate);
    allowed := {};
    for i := 0 to |blocks|
      invariant allowed == UnionOfKeys(tss, i)
    {
      var translations := translate(blocks[i]);
      assert translations == tss[i];
      allowed := AddTranslations(allowed, translations);
    }
  }

  /** The inner loop of lines 110-111. */
  method AddTranslations(allowed: set<string>, translations: seq<string>) returns (allowed': set<string>)
    ensures allowed' == allowed + StrippedKeys(translations)
  {
    allowed' := allowed;
    for j := 0 to |translations|
      invariant allowed' == allowed + StrippedKeys(translations[..j])
    {
      assert translations[..j + 1] == translations[..j] + [translations[j]];
      allowed' := allowed' + {Strip(Upper(translations[j]))};
    }
    assert translations[..|translations|] == translations;
  }

  lemma {:induction false} UnionMembers(tss: seq<seq<string>>, n: nat, x: string)
    requires n <= |tss|
    ensures x in UnionOfKeys(tss, n) <==> exists i :: 0 <= i < n && x in StrippedKeys(tss[i])
  {
    if n > 0 {
      UnionMembers(tss, n - 1, x);
    }
  }

  /** `block.upper().strip()`, the form in which blocks are compared. */
  function Canonical(b: string): string {
    Strip(Upper(b))
  }

  lemma UpperTwice(s: string)
    ensures Upper(Upper(s)) == Upper(s)
  {
  }

  /** Upper-casing and stripping a second time changes nothing. */
  lemma CanonicalIdempotent(b: string)
    ensures Canonical(Canonical(b)) == Canonical(b)
  {
    var u := Upper(b);
    var c := Strip(u);
    TrimStartFacts(u);
    TrimEndFacts(TrimStart(u));
    assert Upper(c) == c;
    StripFacts(u);
  }

  /** What one allowed block admits: its canonical form and, for TixStock, the
      table counterpart of that form. */
  predicate BlockAdmits(b: string, source: string, x: string) {
    x == Canonical(b)
    || (Lower(source) == "tixstock" && Canonical(b) in TixstockMap && x == TixstockMap[Canonical(b)])
  }

  /** A non-TixStock block admits just its canonical form. */
  lemma TranslatedKeysPlain(b: string, source: string)
    requires Lower(source) != "tixstock"
    ensures StrippedKeys(TranslateBlock(b, source)) == {Canonical(b)}
  {
    assert TranslateBlock(b, source) == [b];
  }

  /** A TixStock block admits its canonical form and that form's counterpart, if any. */
  lemma TranslatedKeysTixstock(b: string, source: string)
    requires Lower(source) == "tixstock"
    ensures StrippedKeys(TranslateBlock(b, source)) ==
      if Canonical(b) in TixstockMap then {Canonical(b), TixstockMap[Canonical(b)]} else {Canonical(b)}
  {
    var c := Canonical(b);
    CanonicalIdempotent(b);
    if c in TixstockMap {
      CounterpartCanonical(c);
      PairKeys(c, TixstockMap[c]);
    } else {
      assert TranslateBlock(b, source) == [c];
    }
  }

  /** A table counterpart is already in canonical form. */
  lemma CounterpartCanonical(c: string)
    requires c in TixstockMap
    ensures Canonical(TixstockMap[c]) == TixstockMap[c]
  {
    TixstockInvolution();
    DigitsCanonical(TixstockMap[c]);
  }

  lemma PairKeys(x: string, y: string)
    ensures StrippedKeys([x, y]) == {Canonical(x), Canonical(y)}
  {
  }

  lemma TranslatedKeysFacts(b: string, source: string, x: string)
    ensures x in StrippedKeys(TranslateBlock(b, source)) <==> BlockAdmits(b, source, x)
  {
    if Lower(source) == "tixstock" {
      TranslatedKeysTixstock(b, source);
    } else {
      TranslatedKeysPlain(b, source);
    }
  }

  /** Membership in `allowed_blocks_set`: for TixStock an allowed block's canonical
      form or its table counterpart, for any other source just its canonical form. */
  lemma AllowedSetMembers(blocks: seq<string>, source: string, x: string)
    ensures x in AllowedSet(blocks, source) <==> exists i :: 0 <= i < |blocks| && BlockAdmits(blocks[i], source, x)
  {
    var tss := TranslationsOf(blocks, source);
    UnionMembers(tss, |blocks|, x);
    forall i | 0 <= i < |blocks|
      ensures x in StrippedKeys(tss[i]) <==> BlockAdmits(blocks[i], source, x)
    {
      TranslatedKeysFacts(blocks[i], source, x);
    }
  }

  /** For TixStock the allowed set is closed under the table: an allowed code's
      counterpart is allowed too. */
  lemma AllowedSetClosed(blocks: seq<string>, source: string, x: string)
    requires Lower(source) == "tixstock"
    requires x in AllowedSet(blocks, source) && x in TixstockMap
    ensures TixstockMap[x] in AllowedSet(blocks, source)
  {
    AllowedSetMembers(blocks, source, x);
    var i :| 0 <= i < |blocks| && BlockAdmits(blocks[i], source, x);
    PairClosed(Canonical(blocks[i]), x);
    AllowedSetMembers(blocks, source, TixstockMap[x]);
  }

  /** The pair a canonical code admits is closed under the table. */
  lemma PairClosed(c: string, x: string)
    requires x == c || (c in TixstockMap && x == TixstockMap[c])
    requires x in TixstockMap
    ensures TixstockMap[x] == c || (c in TixstockMap && TixstockMap[x] == TixstockMap[c])
  {
    TixstockInvolution();
  }

  // ---------------------------------------------------------------------------
  // The ticket filter (lines 116-135)

  /** Where the filter puts one ticket: the first test it fails, or candidate. */
  datatype Verdict = GameMismatch | BlockMismatch | AlreadyAssigned | Candidate

  function VerdictOf(order: Order, t: Ticket, allowed: set<string>): Verdict {
    if !GamesMatch(order.eventName, t.game) then GameMismatch
    else if Upper(Norm(t.block)) !in allowed then BlockMismatch
    else if Norm(t.assignedTo) != [] then AlreadyAssigned
    else Candidate
  }

  /** Each ticket's verdict, in ticket order. */
  function Verdicts(order: Order, tickets: seq<Ticket>, allowed: set<string>): (vs: seq<Verdict>)
    ensures |vs| == |tickets|
  {
    seq(|tickets|, i requires 0 <= i < |tickets| => VerdictOf(order, tickets[i], allowed))
  }

  /** The tickets among the first `n` whose verdict is `Candidate`, in ticket order. */
  function Kept(tickets: seq<Ticket>, vs: seq<Verdict>, n: nat): seq<Ticket>
    requires n <= |tickets| == |vs|
  {
    if n == 0 then []
    else Kept(tickets, vs, n - 1) + (if vs[n - 1] == Candidate then [tickets[n - 1]] else [])
  }

  /** How many of the first `n` verdicts are `v`. */
  function CountOf(vs: seq<Verdict>, v: Verdict, n: nat): nat
    requires n <= |vs|
  {
    if n == 0 then 0 else CountOf(vs, v, n - 1) + (if vs[n - 1] == v then 1 else 0)
  }

  /** The `candidates` list of line 135. */
  function Candidates(order: Order, tickets: seq<Ticket>, allowed: set<string>): seq<Ticket> {
    Kept(tickets, Verdicts(order, tickets, allowed), |tickets|)
  }

  /** The loop of lines 121-135: failure counters and the candidate list. */
  method FilterTickets(order: Order, tickets: seq<Ticket>, allowed: set<string>)
    returns (candidates: seq<Ticket>, gameFail: nat, blockFail: nat, alreadyAssigned: nat)
    ensures candidates == Candidates(order, tickets, allowed)
    ensures gameFail == CountOf(Verdicts(order, tickets, allowed), GameMismatch, |tickets|)
    ensures blockFail == CountOf(Verdicts(order, tickets, allowed), BlockMismatch, |tickets|)
    ensures alreadyAssigned == CountOf(Verdicts(order, tickets, allowed), AlreadyAssigned, |tickets|)
  {
    ghost var vs := Verdicts(order, tickets, allowed);
    candidates, gameFail, blockFail, alreadyAssigned := [], 0, 0, 0;
    for i := 0 to |tickets|
      invariant candidates == Kept(tickets, vs, i)
      invariant gameFail == CountOf(vs, GameMismatch, i)
      invariant blockFail == CountOf(vs, BlockMismatch, i)
      invariant alreadyAssigned == CountOf(vs, AlreadyAssigned, i)
    {
      var t := tickets[i];
      var gameMatch := GamesMatch(order.eventName, t.game);
      var blockMatch := Upper(Norm(t.block)) in allowed;
      var notAssigned := Norm(t.assignedTo) == [];
      var v := if !gameMatch then GameMismatch else if !blockMatch then BlockMismatch
               else if !notAssigned then AlreadyAssigned else Candidate;
      assert v == vs[i];
      candidates, gameFail, blockFail, alreadyAssigned :=
        Tally(tickets, vs, i, v, candidates, gameFail, blockFail, alreadyAssigned);
    }
  }

  /** One step of the filter loop: bump the counter of ticket `i`'s verdict, or keep the ticket. */
  method Tally(tickets: seq<Ticket>, ghost vs: seq<Verdict>, i: nat, v: Verdict,
               candidates: seq<Ticket>, gameFail: nat, blockFail: nat, alreadyAssigned: nat)
    returns (candidates': seq<Ticket>, gameFail': nat, blockFail': nat, alreadyAssigned': nat)
    requires i < |tickets| == |vs| && v == vs[i]
    requires candidates == Kept(tickets, vs, i)
    requires gameFail == CountOf(vs, GameMismatch, i)
    requires blockFail == CountOf(vs, BlockMismatch, i)
    requires alreadyAssigned == CountOf(vs, AlreadyAssigned, i)
    ensures candidates' == Kept(tickets, vs, i + 1)
    ensures gameFail' == CountOf(vs, GameMismatch, i + 1)
    ensures blockFail' == CountOf(vs, BlockMismatch, i + 1)
    ensures alreadyAssigned' == CountOf(vs, AlreadyAssigned, i + 1)
  {
    candidates', gameFail', blockFail', alreadyAssigned' := candidates, gameFail, blockFail, alreadyAssigned;
    match v
    case GameMismatch => gameFail' := gameFail + 1;
    case BlockMismatch => blockFail' := blockFail + 1;
    case AlreadyAssigned => alreadyAssigned' := alreadyAssigned + 1;
    case Candidate => candidates' := candidates + [tickets[i]];
  }

  /** Every ticket is counted exactly once: the three failure counts and the
      candidates add up to the pool. */
  lemma {:induction false} FilterPartition(tickets: seq<Ticket>, vs: seq<Verdict>, n: nat)
    requires n <= |tickets| == |vs|
    ensures CountOf(vs, GameMismatch, n) + CountOf(vs, BlockMismatch, n)
      + CountOf(vs, AlreadyAssigned, n) + |Kept(tickets, vs, n)| == n
  {
    if n > 0 {
      FilterPartition(tickets, vs, n - 1);
    }
  }

  /** Every kept ticket is one of the first `n` with verdict `Candidate`. */
  lemma {:induction false} KeptSound(tickets: seq<Ticket>, vs: seq<Verdict>, n: nat)
    requires n <= |tickets| == |vs|
    ensures forall c :: c in Kept(tickets, vs, n) ==> exists i :: 0 <= i < n && tickets[i] == c && vs[i] == Candidate
  {
    if n > 0 {
      KeptSound(tickets, vs, n - 1);
    }
  }

  /** Every one of the first `n` tickets with verdict `Candidate` is kept. */
  lemma {:induction false} KeptComplete(tickets: seq<Ticket>, vs: seq<Verdict>, n: nat)
    requires n <= |tickets| == |vs|
    ensures forall i :: 0 <= i < n && vs[i] == Candidate ==> tickets[i] in Kept(tickets, vs, n)
  {
    if n > 0 {
      KeptComplete(tickets, vs, n - 1);
      var prev := Kept(tickets, vs, n - 1);
      assert forall c :: c in prev ==> c in Kept(tickets, vs, n);
    }
  }

  /** The candidates are exactly the tickets that pass all three tests. */
  lemma CandidatesExact(order: Order, tickets: seq<Ticket>, allowed: set<string>, c: Ticket)
    ensures c in Candidates(order, tickets, allowed) <==>
      c in tickets && VerdictOf(order, c, allowed) == Candidate
  {
    var vs := Verdicts(order, tickets, allowed);
    KeptSound(tickets, vs, |tickets|);
    KeptComplete(tickets, vs, |tickets|);
    if c in tickets {
      var i :| 0 <= i < |tickets| && tickets[i] == c;
      assert vs[i] == VerdictOf(order, c, allowed);
    }
  }

  /** The failure counts and the candidates add up to the pool. */
  lemma FilterCountsAddUp(order: Order, tickets: seq<Ticket>, allowed: set<string>)
    ensures var vs := Verdicts(order, tickets, allowed);
      CountOf(vs, GameMismatch, |tickets|) + CountOf(vs, BlockMismatch, |tickets|)
      + CountOf(vs, AlreadyAssigned, |tickets|) + |Candidates(order, tickets, allowed)| == |tickets|
  {
    FilterPartition(tickets, Verdicts(order, tickets, allowed), |tickets|);
  }

  /** The filter keeps exactly the pool tickets whose game matches, whose
      normalised block is allowed and whose seat is free. */
  lemma CandidateMeaning(order: Order, tickets: seq<Ticket>, allowed: set<string>, t: Ticket)
    ensures t in Candidates(order, tickets, allowed) <==>
      t in tickets && GamesMatch(order.eventName, t.game) && Upper(Norm(t.block)) in allowed
      && Norm(t.assignedTo) == []
  {
    CandidatesExact(order, tickets, allowed, t);
  }

  // ---------------------------------------------------------------------------
  // block_priority and the candidate order (lines 148-167)

  /** The keys a list of translations adds if still missing: `trans.upper()`. */
  function UpperKeys(ts: seq<string>): set<string> {
    set t | t in ts :: Upper(t)
  }

  /** The inner loop of lines 154-156: each translation takes index `i` unless already present. */
  function AddMissing(m: map<string, nat>, ts: seq<string>, i: nat): (r: map<string, nat>)
    ensures r.Keys == m.Keys + UpperKeys(ts)
    ensures forall k :: k in m ==> r[k] == m[k]
    ensures forall k :: k in r && k !in m ==> r[k] == i
    decreases |ts|
  {
    if ts == [] then m
    else
      var m' := if Upper(ts[0]) in m then m else m[Upper(ts[0]) := i];
      assert UpperKeys(ts) == {Upper(ts[0])} + UpperKeys(ts[1..]);
      AddMissing(m', ts[1..], i)
  }

  /** The canonical form of each allowed block. */
  function CanonicalForms(blocks: seq<string>): (direct: seq<string>)
    ensures |direct| == |blocks|
  {
    seq(|blocks|, i requires 0 <= i < |blocks| => Canonical(blocks[i]))
  }

  /** The table after the first `n` blocks, given each block's canonical form
      `direct[i]` and translations `tss[i]`. */
  function PriorityOf(direct: seq<string>, tss: seq<seq<string>>, n: nat): map<string, nat>
    requires n <= |direct| == |tss|
  {
    if n == 0 then map[]
    else AddMissing(PriorityOf(direct, tss, n - 1)[direct[n - 1] := n - 1], tss[n - 1], n - 1)
  }

  /** `block_priority`. */
  function Priority(blocks: seq<string>, source: string): map<string, nat> {
    PriorityOf(CanonicalForms(blocks), TranslationsOf(blocks, source), |blocks|)
  }

  method BuildBlockPriority(blocks: seq<string>, source: string) returns (priority: map<string, nat>)
    ensures priority == Priority(blocks, source)
  {
    priority := PriorityLoop(blocks, Translator(source));
  }

  /** The loop of lines 149-156, with the translation passed in. */
  method PriorityLoop(blocks: seq<string>, translate: string -> seq<string>) returns (priority: map<string, nat>)
    ensures priority == PriorityOf(CanonicalForms(blocks), Translations(blocks, translate), |blocks|)
  {
    ghost var direct := CanonicalForms(blocks);
    ghost var tss := Translations(blocks, translate);
    priority := map[];
    for i := 0 to |blocks|
      invariant priority == PriorityOf(direct, tss, i)
    {
      var b := blocks[i];
      var upper := Strip(Upper(b));
      assert upper == direct[i];
      priority := priority[upper := i];
      var translations := translate(b);
      assert translations == tss[i];
      priority := AddTranslationPriorities(priority, translations, i);
    }
  }

  method AddTranslationPriorities(priority: map<string, nat>, translations: seq<string>, i: nat)
    returns (priority': map<string, nat>)
    ensures priority' == AddMissing(priority, translations, i)
  {
    priority' := priority;
    for j := 0 to |translations|
      invariant AddMissing(priority', translations[j..], i) == AddMissing(priority, translations, i)
    {
      assert translations[j..][1..] == translations[j + 1..];
      if Upper(translations[j]) !in priority' {
        priority' := priority'[Upper(translations[j]) := i];
      }
    }
    assert translations[|translations|..] == [];
  }

  /** Block `i` names key `k`, directly or through one of its translations. */
  predicate Names(direct: seq<string>, tss: seq<seq<string>>, i: nat, k: string)
    requires i < |direct| == |tss|
  {
    k == direct[i] || k in UpperKeys(tss[i])
  }

  /** The table holds exactly the keys some block names, each with the index of a block naming it. */
  lemma PriorityKeys(direct: seq<string>, tss: seq<seq<string>>, n: nat)
    requires n <= |direct| == |tss|
    ensures forall k :: k in PriorityOf(direct, tss, n) <==> exists i :: 0 <= i < n && Names(direct, tss, i, k)
    ensures forall k :: k in PriorityOf(direct, tss, n) ==>
      PriorityOf(direct, tss, n)[k] < n && Names(direct, tss, PriorityOf(direct, tss, n)[k], k)
  {
    PriorityKeyMembers(direct, tss, n);
    PriorityKeyValues(direct, tss, n);
  }

  lemma {:induction false} PriorityKeyMembers(direct: seq<string>, tss: seq<seq<string>>, n: nat)
    requires n <= |direct| == |tss|
    ensures forall k :: k in PriorityOf(direct, tss, n) <==> exists i :: 0 <= i < n && Names(direct, tss, i, k)
  {
    if n > 0 {
      PriorityKeyMembers(direct, tss, n - 1);
      var prev := PriorityOf(direct, tss, n - 1);
      var p := PriorityOf(direct, tss, n);
      forall k ensures k in p <==> exists i :: 0 <= i < n && Names(direct, tss, i, k) {
        if k in p && k !in prev {
          assert Names(direct, tss, n - 1, k);
        }
        if k !in prev && exists i :: 0 <= i < n && Names(direct, tss, i, k) {
          var i :| 0 <= i < n && Names(direct, tss, i, k);
          assert i == n - 1;
        }
      }
    }
  }

  lemma {:induction false} PriorityKeyValues(direct: seq<string>, tss: seq<seq<string>>, n: nat)
    requires n <= |direct| == |tss|
    ensures forall k :: k in PriorityOf(direct, tss, n) ==>
      PriorityOf(direct, tss, n)[k] < n && Names(direct, tss, PriorityOf(direct, tss, n)[k], k)
  {
    if n > 0 {
      PriorityKeyValues(direct, tss, n - 1);
      var prev := PriorityOf(direct, tss, n - 1);
      var m := prev[direct[n - 1] := n - 1];
      var p := PriorityOf(direct, tss, n);
      forall k | k in p ensures p[k] < n && Names(direct, tss, p[k], k) {
        if k !in m {
          assert k in UpperKeys(tss[n - 1]);
        }
      }
    }
  }

  /** A key some block names directly takes the index of the last block naming it so. */
  lemma {:induction false} PriorityDirectLast(direct: seq<string>, tss: seq<seq<string>>, n: nat)
    requires n <= |direct| == |tss|
    ensures forall k, i :: 0 <= i < n && k == direct[i] ==>
      k in PriorityOf(direct, tss, n) && i <= PriorityOf(direct, tss, n)[k] < n
      && direct[PriorityOf(direct, tss, n)[k]] == k
  {
    if n > 0 {
      PriorityDirectLast(direct, tss, n - 1);
      var p := PriorityOf(direct, tss, n);
      forall k, i | 0 <= i < n && k == direct[i] ensures k in p && i <= p[k] < n && direct[p[k]] == k {
        if k != direct[n - 1] {
          assert i < n - 1;
        }
      }
    }
  }

  /** A key that no block names directly takes the index of the first block whose
      translations name it. */
  lemma {:induction false} PriorityTranslationFirst(direct: seq<string>, tss: seq<seq<string>>, n: nat)
    requires n <= |direct| == |tss|
    ensures forall k, i :: 0 <= i < n && k in UpperKeys(tss[i]) && k !in direct[..n] ==>
      k in PriorityOf(direct, tss, n) && PriorityOf(direct, tss, n)[k] <= i
  {
    if n > 0 {
      PriorityTranslationFirst(direct, tss, n - 1);
      PriorityKeys(direct, tss, n - 1);
      var prev := PriorityOf(direct, tss, n - 1);
      var p := PriorityOf(direct, tss, n);
      var m := prev[direct[n - 1] := n - 1];
      assert direct[..n] == direct[..n - 1] + [direct[n - 1]];
      forall k, i | 0 <= i < n && k in UpperKeys(tss[i]) && k !in direct[..n] ensures k in p && p[k] <= i {
        assert k !in direct[..n - 1] && k != direct[n - 1];
        if k in prev {
          assert p[k] == m[k] == prev[k];
          if i == n - 1 {
            assert prev[k] < n - 1;
          }
        } else {
          assert k !in m;
        }
      }
    }
  }

  /** `block_sort_key`: position in the allowed list (999 when absent), then the
      block's number, larger first. */
  function CandidateKey(priority: map<string, nat>): Ticket -> (int, int) {
    (t: Ticket) =>
      var p: int := if Upper(Norm(t.block)) in priority then priority[Upper(Norm(t.block))] else 999;
      (p, -(EmbeddedNumber(t.block) as int))
  }

  /** `sorted(candidates, key=block_sort_key)` is ordered by that key, holds the
      same tickets, and keeps the input order among tickets with equal keys. */
  lemma SortedCandidates(candidates: seq<Ticket>, priority: map<string, nat>)
    ensures var s := SortByKey(candidates, CandidateKey(priority));
      SortedByKey(s, CandidateKey(priority)) && multiset(s) == multiset(candidates)
      && forall v :: WithKey(s, CandidateKey(priority), v) == WithKey(candidates, CandidateKey(priority), v)
  {
    SortIsSorted(candidates, CandidateKey(priority));
    forall v ensures WithKey(SortByKey(candidates, CandidateKey(priority)), CandidateKey(priority), v)
      == WithKey(candidates, CandidateKey(priority), v)
    {
      SortIsStable(candidates, CandidateKey(priority), v);
    }
  }
}
