/** Median Time Past along a chain: selection from a sorted window, seen through counting. */
module MedianTime {
  import opened Prelude
  import opened Types
  import opened Consensus
  import opened Replay

  // How many elements lie below `x`.
  function CountBelow(s: seq<u64>, x: nat): nat {
    if s == [] then 0 else CountBelow(s[1..], x) + if s[0] < x then 1 else 0
  }

  ghost predicate Sorted(s: seq<u64>) {
    forall i, j :: 0 <= i < j < |s| ==> s[i] <= s[j]
  }

  lemma {:induction false} InsertAdds(x: u64, s: seq<u64>)
    ensures multiset(Insert(x, s)) == multiset(s) + multiset{x}
  {
    if s != [] && x > s[0] {
      InsertAdds(x, s[1..]);
      assert s == [s[0]] + s[1..];
    }
  }

  lemma {:induction false} InsertSorts(x: u64, s: seq<u64>)
    requires Sorted(s)
    ensures Sorted(Insert(x, s))
  {
    if s != [] && x > s[0] {
      var rest := Insert(x, s[1..]);
      InsertSorts(x, s[1..]);
      InsertAdds(x, s[1..]);
      assert Insert(x, s) == [s[0]] + rest;
      hide Insert;
      forall i | 0 <= i < |rest| ensures s[0] <= rest[i] {
        assert rest[i] in multiset(rest);
        assert rest[i] == x || rest[i] in s[1..];
      }
    }
  }

  lemma {:induction false} SortSorts(s: seq<u64>)
    ensures Sorted(Sort(s)) && multiset(Sort(s)) == multiset(s)
  {
    if s != [] {
      SortSorts(s[1..]);
      InsertSorts(s[0], Sort(s[1..]));
      InsertAdds(s[0], Sort(s[1..]));
      assert s == [s[0]] + s[1..];
    }
  }

  lemma {:induction false} CountRemove(s: seq<u64>, i: nat, x: nat)
    requires i < |s|
    ensures CountBelow(s, x) == CountBelow(s[..i] + s[i + 1..], x) + if s[i] < x then 1 else 0
  {
    if i == 0 {
      assert s[..0] + s[1..] == s[1..];
    } else {
      CountRemove(s[1..], i - 1, x);
      assert (s[..i] + s[i + 1..])[1..] == s[1..][..i - 1] + s[1..][i..];
    }
  }

  lemma RemoveOne(s: seq<u64>, i: nat)
    requires i < |s|
    ensures multiset(s[..i] + s[i + 1..]) == multiset(s) - multiset{s[i]}
  {
    assert s == s[..i] + [s[i]] + s[i + 1..];
    assert multiset(s) == multiset(s[..i] + s[i + 1..]) + multiset{s[i]};
  }

  lemma CountFirst(s: seq<u64>, x: nat)
    requires |s| > 0
    ensures CountBelow(s, x) == (if s[0] < x then 1 else 0) + CountBelow(s[1..], x)
  {
  }

  lemma {:induction false} CountIsMultiset(s: seq<u64>, t: seq<u64>, x: nat)
    requires multiset(s) == multiset(t)
    ensures CountBelow(s, x) == CountBelow(t, x)
  {
    if s == [] {
      assert |multiset(t)| == 0;
    } else {
      hide CountBelow;
      var rest := DropFirst(s, t, x);
      CountIsMultiset(s[1..], rest, x);
      CountFirst(s, x);
    }
  }

  lemma RemoveFirst(s: seq<u64>)
    requires |s| > 0
    ensures s[0] in multiset(s) && multiset(s[1..]) == multiset(s) - multiset{s[0]}
  {
    RemoveOne(s, 0);
    assert s[..0] + s[1..] == s[1..];
  }

  lemma PlaceOf(t: seq<u64>, x: u64) returns (i: nat)
    requires x in multiset(t)
    ensures i < |t| && t[i] == x
  {
    i :| 0 <= i < |t| && t[i] == x;
  }

  // `t` without one occurrence of the first element of `s`.
  lemma DropFirst(s: seq<u64>, t: seq<u64>, x: nat) returns (rest: seq<u64>)
    requires |s| > 0 && multiset(s) == multiset(t)
    ensures multiset(s[1..]) == multiset(rest)
    ensures CountBelow(t, x) == CountBelow(rest, x) + if s[0] < x then 1 else 0
  {
    hide CountBelow;
    RemoveFirst(s);
    var i := PlaceOf(t, s[0]);
    rest := t[..i] + t[i + 1..];
    RemoveOne(t, i);
    CountRemove(t, i, x);
  }

  lemma {:induction false} CountSorted(s: seq<u64>, k: nat, x: nat)
    requires Sorted(s) && k < |s|
    ensures s[k] < x <==> CountBelow(s, x) > k
  {
    if s[0] >= x {
      CountNone(s, x);
    } else if k > 0 {
      CountSorted(s[1..], k - 1, x);
    }
  }

  lemma {:induction false} CountNone(s: seq<u64>, x: nat)
    requires forall i :: 0 <= i < |s| ==> s[i] >= x
    ensures CountBelow(s, x) == 0
  {
    if s != [] {
      CountNone(s[1..], x);
    }
  }

  lemma {:induction false} CountAtMost(s: seq<u64>, x: nat)
    ensures CountBelow(s, x) <= |s|
  {
    if s != [] {
      CountAtMost(s[1..], x);
    }
  }

  lemma {:induction false} CountAppend(s: seq<u64>, t: seq<u64>, x: nat)
    ensures CountBelow(s + t, x) == CountBelow(s, x) + CountBelow(t, x)
  {
    if s == [] {
      assert s + t == t;
    } else {
      CountAppend(s[1..], t, x);
      assert (s + t)[1..] == s[1..] + t;
    }
  }

  // The median in one line: it is below `x` exactly when more than half of the
  // window (rounded down) is.
  lemma MedianByCounting(blocks: seq<Block>, x: nat)
    requires |blocks| > 0
    ensures MedianTimePast(blocks) < x <==> CountBelow(Recent(blocks), x) > |Recent(blocks)| / 2
  {
    var r := Recent(blocks);
    SortSorts(r);
    CountSorted(Sort(r), |r| / 2, x);
    CountIsMultiset(Sort(r), r, x);
  }

  // One more block with a later timestamp never lowers the median.
  lemma MedianStep(blocks: seq<Block>, b: Block)
    requires |blocks| > 0 && b.timestamp > MedianTimePast(blocks)
    ensures MedianTimePast(blocks) <= MedianTimePast(blocks + [b])
  {
    var m := MedianTimePast(blocks);
    var r := Recent(blocks);
    var longer := Recent(blocks + [b]);
    var kept := if |r| == MTP_WINDOW then r[..MTP_WINDOW - 1] else r;
    assert longer == [b.timestamp] + kept;
    MedianByCounting(blocks, m);
    MedianByCounting(blocks + [b], m);
    CountAppend([b.timestamp], kept, m);
    CountAppend(kept, r[|kept|..], m);
    assert r == kept + r[|kept|..];
  }

  lemma {:induction false} MedianMonotone(c: Crypto, cfg: Config, chain: seq<Block>, n: nat)
    requires ValidChain(c, cfg, chain) && 0 < n <= |chain|
    ensures MedianTimePast(chain[..n]) <= MedianTimePast(chain)
    decreases |chain|
  {
    hide Stands, Process;
    if n == |chain| {
      assert chain[..n] == chain;
    } else {
      ValidFront(c, cfg, chain);
      MedianMonotone(c, cfg, Front(chain), n);
      assert Front(chain)[..n] == chain[..n];
      MedianStep(Front(chain), Last(chain));
      assert Front(chain) + [Last(chain)] == chain;
    }
  }

  // Every block is later than the median of any chain it extends.
  lemma LaterThanMedian(c: Crypto, cfg: Config, chain: seq<Block>, n: nat, m: nat)
    requires ValidChain(c, cfg, chain) && 0 < n <= m < |chain|
    ensures chain[m].timestamp > MedianTimePast(chain[..n])
  {
    ValidPrefix(c, cfg, chain, m);
    MedianMonotone(c, cfg, chain[..m], n);
    assert chain[..m][..n] == chain[..n];
    assert Stands(c, cfg, chain, m);
  }

  // Six blocks always push the median up, whether or not the window was full.
  lemma SixBlocksRaiseMedian(c: Crypto, cfg: Config, chain: seq<Block>, n: nat)
    requires ValidChain(c, cfg, chain) && 0 < n && n + 6 <= |chain|
    ensures MedianTimePast(chain[..n]) < MedianTimePast(chain)
  {
    hide Stands, ValidChain;
    var m: nat := MedianTimePast(chain[..n]);
    var six := chain[..n + 6];
    assert ValidChain(c, cfg, six) by {
      ValidPrefix(c, cfg, chain, n + 6);
    }
    var r := Recent(six);
    forall i | 0 <= i < 6 ensures r[i] >= m + 1 {
      LaterThanMedian(c, cfg, chain, n, n + 5 - i);
      assert r[i] == six[n + 5 - i].timestamp;
    }
    CountNone(r[..6], m + 1);
    CountAtMost(r[6..], m + 1);
    CountAppend(r[..6], r[6..], m + 1);
    assert r == r[..6] + r[6..];
    MedianByCounting(six, m + 1);
    MedianMonotone(c, cfg, chain, n + 6);
  }

  // After two blocks the median is the later timestamp: that of block 1.
  lemma MedianOfTwo(c: Crypto, cfg: Config, chain: seq<Block>)
    requires ValidChain(c, cfg, chain) && |chain| > 1
    ensures MedianTimePast(chain[..2]) == chain[1].timestamp
  {
    assert Stands(c, cfg, chain, 1);
    var two, one := chain[..2], chain[..1];
    assert Recent(one) == [chain[0].timestamp];
    assert Sort(Recent(one)) == [chain[0].timestamp] by {
      assert Sort([]) == [];
      assert Recent(one)[1..] == [];
    }
    assert Recent(two) == [chain[1].timestamp, chain[0].timestamp];
    assert Recent(two)[1..] == [chain[0].timestamp];
    assert Insert(chain[1].timestamp, [chain[0].timestamp]) == [chain[0].timestamp, chain[1].timestamp] by {
      assert Insert(chain[1].timestamp, []) == [chain[1].timestamp];
      assert [chain[0].timestamp][1..] == [];
    }
    assert Sort(Recent(two)) == Insert(chain[1].timestamp, Sort(Recent(two)[1..]));
  }

  // So no block after block 1 is as early as the ASERT anchor, and the
  // saturating subtraction of timestamps is an ordinary one.
  lemma LaterThanAnchor(c: Crypto, cfg: Config, chain: seq<Block>, n: nat)
    requires ValidChain(c, cfg, chain) && 1 < n < |chain|
    ensures chain[n].timestamp > chain[1].timestamp
    ensures SatSub(chain[n].timestamp, chain[1].timestamp) == chain[n].timestamp - chain[1].timestamp
  {
    MedianOfTwo(c, cfg, chain);
    LaterThanMedian(c, cfg, chain, 2, n);
  }
}
