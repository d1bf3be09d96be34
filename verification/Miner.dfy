/** Which pending transfers go into a mined block. */
module Miner {
  import opened Prelude
  import opened Types
  import opened Consensus
  import opened Conservation
  import opened TxPool

  const GUARANTEE_AFTER := 120

  // is_eligible
  function IsEligible(e: Entry, height: nat): bool {
    if e.tx.fee == 0 then false
    else SatSub64(height, e.addedHeight) >= SatSub64(GUARANTEE_AFTER / e.tx.fee, 1)
  }

  function SatSub64(a: nat, b: nat): nat {
    if a >= b then a - b else 0
  }

  // How many blocks an entry has waited; one that claims a later height has not waited at all.
  function Age(e: Entry, height: nat): nat {
    if height > e.addedHeight then height - e.addedHeight else 0
  }

  // The entry has paid for its place: fee times wait exceeds the guarantee.
  predicate PaidFor(e: Entry, height: nat) {
    e.tx.fee * (Age(e, height) + 2) > 120
  }

  lemma EligibleIsPaidFor(e: Entry, height: nat)
    ensures IsEligible(e, height) <==> PaidFor(e, height)
  {
    if e.tx.fee > 0 {
      hide IsEligible;
      EligibleIffPaidFor(e, height);
    }
  }

  // The wait is inversely proportional to the fee, and over for anybody who
  // pays at all once the guarantee has run.
  lemma EligibleIffPaidFor(e: Entry, height: nat)
    requires e.tx.fee > 0
    ensures var age := Age(e, height);
      && (IsEligible(e, height) <==> e.tx.fee * (age + 2) > GUARANTEE_AFTER)
      && (age + 1 >= GUARANTEE_AFTER ==> IsEligible(e, height))
  {
    hide IsEligible, PaidFor;
    EligibleIs(e, height);
    FloorDivision(GUARANTEE_AFTER, e.tx.fee);
    WaitIsOver(e.tx.fee, Age(e, height), GUARANTEE_AFTER, GUARANTEE_AFTER / e.tx.fee);
  }

  lemma WaitIsOver(fee: nat, age: nat, n: nat, q: nat)
    requires q * fee <= n < q * fee + fee && q <= n
    ensures age + 1 >= q <==> fee * (age + 2) > n
  {
    if q < age + 2 {
      MulGap(q, age + 2, fee);
    } else {
      AtMostTimes(age + 2, q, fee);
    }
  }

  lemma EligibleIs(e: Entry, height: nat)
    requires e.tx.fee > 0
    ensures IsEligible(e, height) <==> Age(e, height) + 1 >= GUARANTEE_AFTER / e.tx.fee
    ensures GUARANTEE_AFTER / e.tx.fee <= GUARANTEE_AFTER
  {
  }

  lemma FloorDivision(n: nat, d: nat)
    requires d > 0
    ensures n / d * d <= n < n / d * d + d
  {
  }

  lemma AtMostTimes(a: nat, b: nat, n: nat)
    requires a <= b
    ensures a * n <= b * n
  {
    if a < b {
      MulGap(a, b, n);
    }
  }

  // -------------------------------------------------------------------------
  // Highest fee first
  // -------------------------------------------------------------------------

  ghost predicate Descending(txs: seq<Tx>) {
    forall i, j :: 0 <= i < j < |txs| ==> txs[i].fee >= txs[j].fee
  }

  // The sort is the standard library's: any stable descending order is this one.
  function Place(tx: Tx, txs: seq<Tx>): (r: seq<Tx>)
    ensures |r| == |txs| + 1
  {
    if txs == [] || tx.fee >= txs[0].fee then [tx] + txs else [txs[0]] + Place(tx, txs[1..])
  }

  function ByFee(txs: seq<Tx>): (r: seq<Tx>)
    ensures |r| == |txs|
  {
    if txs == [] then [] else Place(txs[0], ByFee(txs[1..]))
  }

  lemma {:induction false} PlaceAdds(tx: Tx, txs: seq<Tx>)
    ensures multiset(Place(tx, txs)) == multiset(txs) + multiset{tx}
  {
    if txs == [] || tx.fee >= txs[0].fee {
    } else {
      PlaceAdds(tx, txs[1..]);
      assert txs == [txs[0]] + txs[1..];
    }
  }

  lemma DescendingCons(head: Tx, rest: seq<Tx>)
    requires Descending(rest) && forall j :: 0 <= j < |rest| ==> rest[j].fee <= head.fee
    ensures Descending([head] + rest)
  {
  }

  lemma PlaceBelow(tx: Tx, txs: seq<Tx>, top: u64)
    requires tx.fee <= top && forall j :: 0 <= j < |txs| ==> txs[j].fee <= top
    ensures forall j :: 0 <= j < |Place(tx, txs)| ==> Place(tx, txs)[j].fee <= top
  {
    hide *;
    PlaceAdds(tx, txs);
    var rest := Place(tx, txs);
    forall j | 0 <= j < |rest| ensures rest[j].fee <= top {
      assert rest[j] in multiset(rest);
      assert rest[j] == tx || rest[j] in multiset(txs);
    }
  }

  lemma {:induction false} PlaceDescends(tx: Tx, txs: seq<Tx>)
    requires Descending(txs)
    ensures Descending(Place(tx, txs))
  {
    if txs == [] || tx.fee >= txs[0].fee {
      DescendingCons(tx, txs);
    } else {
      PlaceDescends(tx, txs[1..]);
      PlaceBelow(tx, txs[1..], txs[0].fee);
      DescendingCons(txs[0], Place(tx, txs[1..]));
    }
  }

  lemma {:induction false} ByFeeSorts(txs: seq<Tx>)
    ensures Descending(ByFee(txs)) && multiset(ByFee(txs)) == multiset(txs)
  {
    if txs != [] {
      ByFeeSorts(txs[1..]);
      PlaceAdds(txs[0], ByFee(txs[1..]));
      PlaceDescends(txs[0], ByFee(txs[1..]));
      assert txs == [txs[0]] + txs[1..];
    }
  }

  // -------------------------------------------------------------------------
  // Selection
  // -------------------------------------------------------------------------

  // The transfers of the entries that may go in: all of them when they fit,
  // otherwise the eligible ones.
  function Candidates(entries: seq<Entry>, height: nat, busy: bool): (r: seq<Tx>)
    ensures |r| <= |entries|
  {
    if entries == [] then []
    else
      Candidates(Front(entries), height, busy) +
      if !busy || IsEligible(Last(entries), height) then [Last(entries).tx] else []
  }

  function Chosen(entries: seq<Entry>, height: nat): seq<Tx> {
    var sorted := ByFee(Candidates(entries, height, |entries| > MAX_BLOCK_TXS));
    sorted[..Min(|sorted|, MAX_BLOCK_TXS)]
  }

  // Whoever may go in: everybody when all fit in a block, otherwise those who have paid for it.
  ghost function Welcome(entries: seq<Entry>, height: nat): (r: set<nat>)
    ensures forall i :: i in r ==> i < |entries|
  {
    set i: nat | i < |entries| && (|entries| <= 240 || PaidFor(entries[i], height))
  }

  // `txs` are the transfers of the entries at `picks`, which are welcome; they come
  // highest fee first, those of equal fee in pool order; and as many of them as fit
  // a block are there, none left out paying more than one taken.
  ghost predicate Selects(entries: seq<Entry>, height: nat, txs: seq<Tx>, picks: seq<nat>) {
    && |picks| == |txs| == Min(240, |Welcome(entries, height)|)
    && (forall k :: 0 <= k < |txs| ==> picks[k] in Welcome(entries, height) && txs[k] == entries[picks[k]].tx)
    && (forall k, l :: 0 <= k < l < |txs| ==>
          txs[k].fee > txs[l].fee || (txs[k].fee == txs[l].fee && picks[k] < picks[l]))
    && (forall i, k :: i in Welcome(entries, height) && i !in picks && 0 <= k < |txs| ==>
          entries[i].tx.fee <= txs[k].fee)
  }

  ghost predicate Climbs(p: seq<nat>, n: nat) {
    (forall k :: 0 <= k < |p| ==> p[k] < n) && forall k, l :: 0 <= k < l < |p| ==> p[k] < p[l]
  }

  // Where the candidates stand in the pool.
  lemma {:induction false} CandidatePlaces(entries: seq<Entry>, height: nat, busy: bool) returns (p: seq<nat>)
    ensures |p| == |Candidates(entries, height, busy)| && Climbs(p, |entries|)
    ensures forall k :: 0 <= k < |p| ==> Candidates(entries, height, busy)[k] == entries[p[k]].tx
    ensures forall i :: i in p <==> 0 <= i < |entries| && (!busy || PaidFor(entries[i], height))
  {
    p := [];
    if entries != [] {
      p := CandidatePlaces(Front(entries), height, busy);
      EligibleIsPaidFor(Last(entries), height);
      hide PaidFor, IsEligible;
      if !busy || PaidFor(Last(entries), height) {
        p := p + [|entries| - 1];
      }
    }
  }

  // Where `tx` goes: behind what pays more, before the rest.
  lemma {:induction false} PlacedAt(tx: Tx, txs: seq<Tx>) returns (q: nat)
    requires Descending(txs)
    ensures q <= |txs| && Place(tx, txs) == txs[..q] + [tx] + txs[q..]
    ensures forall k :: 0 <= k < q ==> txs[k].fee > tx.fee
    ensures forall k :: q <= k < |txs| ==> txs[k].fee <= tx.fee
  {
    if txs == [] || tx.fee >= txs[0].fee {
      q := 0;
    } else {
      q := PlacedAt(tx, txs[1..]);
      q := q + 1;
      assert txs[..q] == [txs[0]] + txs[1..][..q - 1] && txs[q..] == txs[1..][q - 1..];
    }
  }

  // `p` permutes the places of `txs` into `sorted`, keeping the order among equals.
  ghost predicate Arranges(txs: seq<Tx>, sorted: seq<Tx>, p: seq<nat>) {
    && |p| == |sorted| == |txs|
    && (forall k :: 0 <= k < |p| ==> p[k] < |txs| && sorted[k] == txs[p[k]])
    && (forall k, l :: 0 <= k < l < |p| ==>
          sorted[k].fee > sorted[l].fee || (sorted[k].fee == sorted[l].fee && p[k] < p[l]))
    && forall i: nat :: i < |txs| ==> i in p
  }

  lemma {:induction false} SortArranges(txs: seq<Tx>) returns (p: seq<nat>)
    ensures Arranges(txs, ByFee(txs), p)
  {
    if txs == [] {
      p := [];
    } else {
      var rest := txs[1..];
      var below := SortArranges(rest);
      ByFeeSorts(rest);
      var q := PlacedAt(txs[0], ByFee(rest));
      p := ArrangeOneMore(txs, ByFee(rest), below, q);
    }
  }

  // The place of the j-th of `below` once something has been put in at `q`.
  function Shifted(j: nat, q: nat): nat {
    if j < q then j else j + 1
  }

  lemma ArrangeOneMore(txs: seq<Tx>, sorted: seq<Tx>, below: seq<nat>, q: nat) returns (p: seq<nat>)
    requires |txs| > 0 && Arranges(txs[1..], sorted, below) && q <= |sorted|
    requires forall k :: 0 <= k < q ==> sorted[k].fee > txs[0].fee
    requires forall k :: q <= k < |sorted| ==> sorted[k].fee <= txs[0].fee
    ensures Arranges(txs, sorted[..q] + [txs[0]] + sorted[q..], p)
  {
    var up := seq(|below|, k requires 0 <= k < |below| => below[k] + 1);
    p := up[..q] + [0] + up[q..];
    var longer := sorted[..q] + [txs[0]] + sorted[q..];
    assert p[q] == 0 && longer[q] == txs[0];
    forall j | 0 <= j < |below| ensures p[Shifted(j, q)] == below[j] + 1 && longer[Shifted(j, q)] == sorted[j] {
    }
    ArrangedAround(txs, sorted, below, q, longer, p);
  }

  lemma ArrangedAround(txs: seq<Tx>, sorted: seq<Tx>, below: seq<nat>, q: nat, longer: seq<Tx>, p: seq<nat>)
    requires |txs| > 0 && Arranges(txs[1..], sorted, below) && q <= |sorted|
    requires forall k :: 0 <= k < q ==> sorted[k].fee > txs[0].fee
    requires forall k :: q <= k < |sorted| ==> sorted[k].fee <= txs[0].fee
    requires |longer| == |p| == |txs| && p[q] == 0 && longer[q] == txs[0]
    requires forall j :: 0 <= j < |below| ==> p[Shifted(j, q)] == below[j] + 1 && longer[Shifted(j, q)] == sorted[j]
    ensures Arranges(txs, longer, p)
  {
    forall i: nat | i < |txs| ensures i in p {
      if i == 0 {
        assert p[q] == 0;
      } else {
        assert i - 1 in below;
        var k :| 0 <= k < |below| && below[k] == i - 1;
        assert p[Shifted(k, q)] == i;
      }
    }
    forall k | 0 <= k < |p| ensures p[k] < |txs| && longer[k] == txs[p[k]] {
      var j := if k < q then k else k - 1;
      assert k != q ==> Shifted(j, q) == k && txs[1..][below[j]] == txs[below[j] + 1];
    }
    forall k, l | 0 <= k < l < |p|
      ensures longer[k].fee > longer[l].fee || (longer[k].fee == longer[l].fee && p[k] < p[l])
    {
      var i, j := if k < q then k else k - 1, if l < q then l else l - 1;
      assert k != q ==> Shifted(i, q) == k;
      assert l != q ==> Shifted(j, q) == l;
    }
  }

  // The selection is the one specified.
  lemma ChosenSelects(entries: seq<Entry>, height: nat) returns (picks: seq<nat>)
    ensures Selects(entries, height, Chosen(entries, height), picks)
  {
    hide Candidates, ByFee, Arranges, PaidFor, Selects, Climbs;
    var busy := |entries| > MAX_BLOCK_TXS;
    var all, chosen := Candidates(entries, height, busy), Chosen(entries, height);
    var place := CandidatePlaces(entries, height, busy);
    var p := SortArranges(all);
    PlacesAreWelcome(entries, height, busy, place);
    picks := PicksOf(all, place, p, |chosen|);
    PicksSelect(entries, height, all, place, p, chosen, picks);
  }

  lemma PlacesAreWelcome(entries: seq<Entry>, height: nat, busy: bool, place: seq<nat>)
    requires busy == (|entries| > MAX_BLOCK_TXS) && Climbs(place, |entries|)
    requires forall i :: i in place <==> 0 <= i < |entries| && (!busy || PaidFor(entries[i], height))
    ensures Welcome(entries, height) == Members(place) && |Welcome(entries, height)| == |place|
  {
    hide PaidFor;
    AllDifferent(place);
    assert Welcome(entries, height) == Members(place);
  }

  lemma PicksOf(all: seq<Tx>, place: seq<nat>, p: seq<nat>, n: nat) returns (picks: seq<nat>)
    requires |place| == |all| && Arranges(all, ByFee(all), p) && n <= |all|
    ensures |picks| == n && forall k :: 0 <= k < n ==> p[k] < |place| && picks[k] == place[p[k]]
  {
    hide ByFee;
    picks := seq(n, k requires 0 <= k < n => place[p[k]]);
  }

  lemma PicksSelect(entries: seq<Entry>, height: nat, all: seq<Tx>, place: seq<nat>, p: seq<nat>, chosen: seq<Tx>,
                    picks: seq<nat>)
    requires Climbs(place, |entries|) && |place| == |all| && Arranges(all, ByFee(all), p)
    requires forall k :: 0 <= k < |place| ==> all[k] == entries[place[k]].tx
    requires Welcome(entries, height) == Members(place) && |Welcome(entries, height)| == |place|
    requires |chosen| == Min(240, |all|) && chosen == ByFee(all)[..|chosen|]
    requires |picks| == |chosen| && forall k :: 0 <= k < |chosen| ==> p[k] < |place| && picks[k] == place[p[k]]
    ensures Selects(entries, height, chosen, picks)
  {
    var welcome := Welcome(entries, height);
    hide Welcome, Members, ByFee, Arranges, Climbs, Selects;
    ArrangedSize(all, p);
    forall k | 0 <= k < |chosen| ensures picks[k] in welcome && chosen[k] == entries[picks[k]].tx {
      ArrangedOne(all, p, k);
      IsMember(place, p[k]);
    }
    forall k, l | 0 <= k < l < |chosen|
      ensures chosen[k].fee > chosen[l].fee || (chosen[k].fee == chosen[l].fee && picks[k] < picks[l])
    {
      ArrangedTwo(all, p, k, l);
      ClimbTwo(place, |entries|, p[k], p[l]);
    }
    forall i, k | i in welcome && i !in picks && 0 <= k < |chosen| ensures entries[i].tx.fee <= chosen[k].fee {
      MemberIs(place, i);
      LeftOutPaysLess(all, place, p, chosen, picks, i, k);
    }
    SelectsIntro(entries, height, chosen, picks);
  }

  lemma SelectsIntro(entries: seq<Entry>, height: nat, txs: seq<Tx>, picks: seq<nat>)
    requires |picks| == |txs| == Min(240, |Welcome(entries, height)|)
    requires forall k :: 0 <= k < |txs| ==> picks[k] in Welcome(entries, height) && txs[k] == entries[picks[k]].tx
    requires forall k, l :: 0 <= k < l < |txs| ==>
      txs[k].fee > txs[l].fee || (txs[k].fee == txs[l].fee && picks[k] < picks[l])
    requires forall i, k :: i in Welcome(entries, height) && i !in picks && 0 <= k < |txs| ==>
      entries[i].tx.fee <= txs[k].fee
    ensures Selects(entries, height, txs, picks)
  {
  }

  lemma ArrangedSize(all: seq<Tx>, p: seq<nat>)
    requires Arranges(all, ByFee(all), p)
    ensures |p| == |all|
  {
  }

  lemma ArrangedOne(all: seq<Tx>, p: seq<nat>, k: nat)
    requires Arranges(all, ByFee(all), p) && k < |p|
    ensures p[k] < |all| && ByFee(all)[k] == all[p[k]]
  {
    hide ByFee;
  }

  lemma ArrangedTwo(all: seq<Tx>, p: seq<nat>, k: nat, l: nat)
    requires Arranges(all, ByFee(all), p) && k < l < |p|
    ensures ByFee(all)[k].fee > ByFee(all)[l].fee || (ByFee(all)[k].fee == ByFee(all)[l].fee && p[k] < p[l])
  {
    hide ByFee;
  }

  lemma ClimbTwo(place: seq<nat>, n: nat, i: nat, j: nat)
    requires Climbs(place, n) && i < |place| && j < |place|
    ensures i < j ==> place[i] < place[j]
  {
  }

  lemma IsMember(s: seq<nat>, k: nat)
    requires k < |s|
    ensures s[k] in Members(s)
  {
  }

  lemma MemberIs(s: seq<nat>, x: nat)
    ensures x in Members(s) <==> x in s
  {
  }

  lemma LeftOutPaysLess(all: seq<Tx>, place: seq<nat>, p: seq<nat>, chosen: seq<Tx>, picks: seq<nat>, i: nat, k: nat)
    requires |place| == |all| && Arranges(all, ByFee(all), p) && |chosen| <= |all| && chosen == ByFee(all)[..|chosen|]
    requires |picks| == |chosen| && forall l :: 0 <= l < |chosen| ==> picks[l] == place[p[l]]
    requires i in place && i !in picks && k < |chosen|
    ensures exists j :: 0 <= j < |all| && place[j] == i && all[j].fee <= chosen[k].fee
  {
    hide ByFee;
    var j :| 0 <= j < |all| && place[j] == i;
    assert j in p;
    var l :| 0 <= l < |p| && p[l] == j;
    assert l >= |chosen|;
    assert ByFee(all)[l] == all[j] && ByFee(all)[k] == chosen[k];
  }

  method SelectTransactions(entries: seq<Entry>, height: nat) returns (txs: seq<Tx>, ghost picks: seq<nat>)
    ensures txs == Chosen(entries, height)
    // Which of the entries, in which order.
    ensures Selects(entries, height, txs, picks)
    ensures |entries| <= 240 ==> |txs| == |entries| && forall i: nat :: i < |entries| ==> i in picks
  {
    var busy := |entries| > MAX_BLOCK_TXS;
    txs := [];
    assert entries[..0] == [];
    for i := 0 to |entries|
      invariant txs == Candidates(entries[..i], height, busy)
    {
      assert Front(entries[..i + 1]) == entries[..i];
      if !busy || IsEligible(entries[i], height) {
        txs := txs + [entries[i].tx];
      }
    }
    assert entries[..|entries|] == entries;
    txs := ByFee(txs);
    if busy && |txs| > MAX_BLOCK_TXS {
      txs := txs[..MAX_BLOCK_TXS];
    }
    hide ByFee, Candidates, Selects;
    picks := ChosenSelects(entries, height);
    if |entries| <= 240 {
      AllAreTaken(entries, height, txs, picks);
    }
  }

  lemma AllAreTaken(entries: seq<Entry>, height: nat, txs: seq<Tx>, picks: seq<nat>)
    requires Selects(entries, height, txs, picks) && |entries| <= 240
    ensures |txs| == |entries| && forall i: nat :: i < |entries| ==> i in picks
  {
    var welcome, taken := Welcome(entries, height), Members(picks);
    assert welcome == UpTo(|entries|);
    AllDifferent(picks);
    assert taken <= welcome;
    forall i: nat | i < |entries| ensures i in picks {
      if i !in taken {
        Smaller(taken, welcome - {i});
      }
    }
  }

  function Members(s: seq<nat>): set<nat> {
    set i | i in s
  }

  function UpTo(n: nat): (r: set<nat>)
    ensures |r| == n && forall i :: i in r <==> 0 <= i < n
  {
    if n == 0 then {} else UpTo(n - 1) + {n - 1}
  }

  lemma {:induction false} AllDifferent(s: seq<nat>)
    requires forall k, l :: 0 <= k < l < |s| ==> s[k] != s[l]
    ensures |Members(s)| == |s|
  {
    if s == [] {
      assert Members(s) == {};
    } else {
      var front, last := Front(s), Last(s);
      AllDifferent(front);
      assert forall k :: 0 <= k < |front| ==> front[k] == s[k] != last;
      MembersSplit(front, last);
      assert s == front + [last];
    }
  }

  lemma MembersSplit(s: seq<nat>, x: nat)
    ensures Members(s + [x]) == Members(s) + {x}
  {
  }

  lemma Smaller(x: set<nat>, y: set<nat>)
    requires x <= y
    ensures |x| <= |y|
  {
    assert y == x + (y - x);
  }

  lemma {:induction false} CandidatesAreSelected(entries: seq<Entry>, es: Entries, height: nat, busy: bool)
    requires Dump(entries, es)
    ensures SelectedFrom(es, Candidates(entries, height, busy))
    ensures forall t :: t in Candidates(entries, height, busy) ==> Came(t, entries)
  {
    if entries != [] {
      var front := Front(entries);
      CandidatesAreSelected(front, es, height, busy);
      var some := Candidates(front, height, busy);
      forall i | 0 <= i < |some| ensures some[i].signature != Last(entries).tx.signature {
        assert Came(some[i], front);
      }
      forall t | t in Candidates(entries, height, busy) ensures Came(t, entries) {
        if t in some {
          var i :| 0 <= i < |front| && front[i].tx == t;
          assert entries[i].tx == t;
        } else {
          assert entries[|entries| - 1].tx == t;
        }
      }
    }
  }

  ghost predicate Came(t: Tx, entries: seq<Entry>) {
    exists i :: 0 <= i < |entries| && entries[i].tx == t
  }

  lemma SelectedReordered(es: Entries, s: seq<Tx>, t: seq<Tx>)
    requires SelectedFrom(es, s) && multiset(s) == multiset(t)
    ensures SelectedFrom(es, t)
  {
    forall i | 0 <= i < |t| ensures t[i].signature in es && es[t[i].signature].tx == t[i] {
      assert t[i] in multiset(t);
    }
    forall i, j | 0 <= i < j < |t| ensures t[i].signature != t[j].signature {
      if t[i].signature == t[j].signature {
        assert t[i] in multiset(t) && t[j] in multiset(t);
        assert t[i] == t[j];
        TwiceInMultiset(t, i, j);
        OnceInMultiset(s, t[i]);
      }
    }
  }

  lemma TwiceInMultiset(t: seq<Tx>, i: nat, j: nat)
    requires i < j < |t| && t[i] == t[j]
    ensures multiset(t)[t[i]] >= 2
  {
    assert t == t[..i] + [t[i]] + t[i + 1..j] + [t[j]] + t[j + 1..];
  }

  lemma {:induction false} OnceInMultiset(s: seq<Tx>, x: Tx)
    requires forall i, j :: 0 <= i < j < |s| ==> s[i].signature != s[j].signature
    ensures multiset(s)[x] <= 1
  {
    if s != [] {
      OnceInMultiset(Front(s), x);
      assert s == Front(s) + [Last(s)];
      if x == Last(s) {
        assert forall i :: 0 <= i < |s| - 1 ==> Front(s)[i].signature != x.signature;
        assert x !in multiset(Front(s));
      }
    }
  }

  // A whole dump yields a duplicate-free selection of at most a block's worth.
  lemma ChosenIsSelected(entries: seq<Entry>, es: Entries, height: nat)
    requires Dump(entries, es)
    ensures SelectedFrom(es, Chosen(entries, height)) && |Chosen(entries, height)| <= MAX_BLOCK_TXS
  {
    hide SelectedFrom, Dump;
    var all := Candidates(entries, height, |entries| > MAX_BLOCK_TXS);
    CandidatesAreSelected(entries, es, height, |entries| > MAX_BLOCK_TXS);
    ByFeeSorts(all);
    SelectedReordered(es, all, ByFee(all));
    SelectedTake(es, ByFee(all), |Chosen(entries, height)|);
  }

  lemma SelectedTake(es: Entries, s: seq<Tx>, n: nat)
    requires SelectedFrom(es, s) && n <= |s|
    ensures SelectedFrom(es, s[..n])
  {
  }

  // Nothing left out pays more than anything taken, and nothing is left out
  // while there is room.
  lemma ChosenPaysBest(entries: seq<Entry>, height: nat, out: Tx)
    requires out in Candidates(entries, height, |entries| > MAX_BLOCK_TXS) && out !in Chosen(entries, height)
    ensures |Chosen(entries, height)| == MAX_BLOCK_TXS < |entries|
    ensures forall t :: t in Chosen(entries, height) ==> t.fee >= out.fee
  {
    var all := Candidates(entries, height, |entries| > MAX_BLOCK_TXS);
    var sorted, chosen := ByFee(all), Chosen(entries, height);
    ByFeeSorts(all);
    hide ByFee, Candidates;
    assert out in multiset(sorted);
    var j :| 0 <= j < |sorted| && sorted[j] == out;
    assert forall k :: 0 <= k < |chosen| ==> chosen[k] == sorted[k];
  }

  // The block a miner builds from the selection.
  function Assembled(coinbase: Tx, txs: seq<Tx>): seq<Tx> {
    [coinbase] + txs
  }

  lemma {:induction false} CoinbaseInFront(coinbase: Tx, txs: seq<Tx>, a: Address)
    requires coinbase.Coinbase()
    ensures Spent(Assembled(coinbase, txs), a) == Spent(txs, a)
    ensures CountTransfers(Assembled(coinbase, txs)) == CountTransfers(txs)
  {
    var whole := Assembled(coinbase, txs);
    if txs == [] {
      assert Front(whole) == [];
    } else {
      assert Front(whole) == Assembled(coinbase, Front(txs)) && Last(whole) == Last(txs);
      CoinbaseInFront(coinbase, Front(txs), a);
    }
  }

  lemma {:induction false} CountAtMost(txs: seq<Tx>)
    ensures CountTransfers(txs) <= |txs|
  {
    if txs != [] {
      CountAtMost(Front(txs));
    }
  }

  lemma AssembledIsPreValid(c: Crypto, l: Ledger, coinbase: Tx, txs: seq<Tx>)
    requires coinbase.Coinbase() && PreValid(c, l, txs)
    ensures PreValid(c, l, Assembled(coinbase, txs))
  {
    hide TransferOk, Spent, Balance;
    var whole := Assembled(coinbase, txs);
    forall i | 0 <= i < |whole| && !whole[i].Coinbase() ensures PaysAt(c, l, whole, i) {
      assert PaysAt(c, l, txs, i - 1);
      assert whole[..i + 1] == Assembled(coinbase, txs[..i]);
      CoinbaseInFront(coinbase, txs[..i], whole[i].sender);
    }
    forall i, j | 0 <= i < j < |whole| && !whole[i].Coinbase() && !whole[j].Coinbase()
      ensures whole[i].signature != whole[j].signature
    {
      assert whole[i] == txs[i - 1] && whole[j] == txs[j - 1];
    }
  }

  // From a pool of sendable transfers whose senders are solvent, the miner always
  // builds a block the consensus rules admit: what is left to get right is the
  // header and the coinbase.
  lemma MinedBlockIsAdmissible(c: Crypto, v: View, es: Entries, entries: seq<Entry>, height: nat, coinbase: Tx,
                               b: Block)
    requires |v.blocks| > 0 && Supply(v.ledger) < U64_MAX
    requires WellKept(es) && AllSendable(c, v.ledger, es) && Dump(entries, es)
    requires forall s :: s in es ==> Solvent(es, v.ledger, es[s].tx.sender)
    requires coinbase.Coinbase() && coinbase.amount <= 1 && coinbase.fee == 0 && c.decodes(coinbase.receiver)
    requires b.transactions == Assembled(coinbase, Chosen(entries, height)) && b.txRoot == c.txRoot(b.transactions)
    requires b.hash == c.headerHash(b.HeaderOf()) && c.meets(b.hash, v.ledger.difficulty)
    requires b.index == v.Height() && b.previousHash == Last(v.blocks).hash && b.timestamp > MedianTimePast(v.blocks)
    ensures Admissible(c, v, b) && Process(c, v, b).Yields?
  {
    hide Chosen, Solvent, PreValid, Process, MedianTimePast, Supply, CountTransfers, Booked, SelectedFrom, Dump;
    hide Bounded, AllSendable, Assembled;
    var txs := Chosen(entries, height);
    ChosenIsSelected(entries, es, height);
    SelectedArePooled(v.ledger, es, txs);
    MinedIsWellFormed(c, coinbase, txs, b);
    SolventPoolIsValid(c, v.ledger, es, txs);
    AssembledIsPreValid(c, v.ledger, coinbase, txs);
    hide WellFormed;
    RoomForCoinbase(c, v.ledger, b);
    PreValidationSuffices(c, v, b);
  }

  lemma RoomForCoinbase(c: Crypto, l: Ledger, b: Block)
    requires WellFormed(c, b) && Supply(l) < U64_MAX
    ensures Supply(l) + b.Minted() <= U64_MAX
  {
    hide Supply, CountTransfers;
  }

  lemma SelectedArePooled(l: Ledger, es: Entries, txs: seq<Tx>)
    requires SelectedFrom(es, txs) && FiledBySignature(es) && forall s :: s in es ==> Solvent(es, l, es[s].tx.sender)
    ensures forall i :: 0 <= i < |txs| ==> !txs[i].Coinbase() && Solvent(es, l, txs[i].sender)
  {
    hide Solvent;
  }

  lemma MinedIsWellFormed(c: Crypto, coinbase: Tx, txs: seq<Tx>, b: Block)
    requires coinbase.Coinbase() && coinbase.amount <= 1 && coinbase.fee == 0 && c.decodes(coinbase.receiver)
    requires b.transactions == Assembled(coinbase, txs) && b.txRoot == c.txRoot(b.transactions)
    requires b.hash == c.headerHash(b.HeaderOf()) && |txs| <= MAX_BLOCK_TXS
    requires forall i :: 0 <= i < |txs| ==> !txs[i].Coinbase()
    ensures WellFormed(c, b)
  {
    CoinbaseInFront(coinbase, txs, []);
    CountAtMost(txs);
    hide CountTransfers;
  }
}
