/** The links of a FAT as tools/addfile.py changes them: a chain freed, the first
    free clusters taken and linked up. */
module FatLinks {
  import opened FatTable
  import opened FatVolume
  import opened FatImage

  /** A cluster number a walk may index with, or one that ends it. */
  predicate LinkOk(c: nat, n: nat) { c < n || c >= READER_END }

  predicate InRange(fat: seq<Entry>) { forall k :: 2 <= k < |fat| ==> LinkOk(fat[k], |fat|) }

  function Used(fat: seq<Entry>): set<nat> { set c: nat | c < |fat| && fat[c] != 0 }

  lemma UsedShrinks(fat: seq<Entry>, c: nat)
    requires c < |fat|
    ensures fat[c] != 0 ==> |Used(fat[c := 0])| < |Used(fat)|
    ensures fat[c] == 0 ==> fat[c := 0] == fat
    ensures Used(fat[c := 0]) == Used(fat) - {c}
  {
    assert Used(fat[c := 0]) == Used(fat) - {c};
  }

  /** The freeing loop. It ends whatever the links are, cycles included: each round
      zeroes an entry, or has met a zero and stops. */
  function Freed(fat: seq<Entry>, c: nat): (r: seq<Entry>)
    requires InRange(fat) && LinkOk(c, |fat|)
    ensures |r| == |fat|
    decreases |Used(fat)|, c
  {
    if !(2 <= c < READER_END) then fat
    else
      UsedShrinks(fat, c);
      Freed(fat[c := 0], fat[c])
  }

  /** The clusters that loop visits. */
  function Trail(fat: seq<Entry>, c: nat): set<nat>
    requires InRange(fat) && LinkOk(c, |fat|)
    decreases |Used(fat)|, c
  {
    if !(2 <= c < READER_END) then {}
    else
      UsedShrinks(fat, c);
      {c} + Trail(fat[c := 0], fat[c])
  }

  /** What freeing does, for any links: the trail's entries are zero and no other
      entry has changed. */
  lemma {:induction false} FreedExactly(fat: seq<Entry>, c: nat, k: nat)
    requires InRange(fat) && LinkOk(c, |fat|) && k < |fat|
    ensures Freed(fat, c)[k] == if k in Trail(fat, c) then 0 else fat[k]
    decreases |Used(fat)|, c
  {
    if 2 <= c < READER_END {
      UsedShrinks(fat, c);
      FreedExactly(fat[c := 0], fat[c], k);
    }
  }

  lemma {:induction false} TrailInside(fat: seq<Entry>, c: nat)
    requires InRange(fat) && LinkOk(c, |fat|)
    ensures forall k :: k in Trail(fat, c) ==> 2 <= k < |fat| && k < READER_END
    decreases |Used(fat)|, c
  {
    if 2 <= c < READER_END {
      UsedShrinks(fat, c);
      TrailInside(fat[c := 0], fat[c]);
    }
  }

  // ---- chains ------------------------------------------------------------------------

  /** `cs` are the clusters of a file that starts at `cs[0]`. */
  predicate IsChain(fat: seq<Entry>, cs: seq<nat>) {
    && |cs| > 0
    && (forall i :: 0 <= i < |cs| ==> 2 <= cs[i] < |fat| && cs[i] < READER_END)
    && (forall i :: 0 <= i < |cs| - 1 ==> fat[cs[i]] == cs[i + 1])
    && fat[cs[|cs| - 1]] >= READER_END
  }

  lemma {:induction false} NoRepeats(fat: seq<Entry>, cs: seq<nat>, i: nat, j: nat)
    requires IsChain(fat, cs) && i < j < |cs|
    ensures cs[i] != cs[j]
    decreases |cs| - j
  {
    assert fat[cs[i]] == cs[i + 1] < READER_END;
    if j < |cs| - 1 {
      assert fat[cs[j]] == cs[j + 1];
      NoRepeats(fat, cs, i + 1, j + 1);
    }
  }

  function Elems(cs: seq<nat>): set<nat> { set c | c in cs }

  lemma ElemsSplit(cs: seq<nat>)
    requires |cs| > 0
    ensures Elems(cs) == {cs[0]} + Elems(cs[1..])
  {
    assert cs == [cs[0]] + cs[1..];
  }

  lemma RestOfChain(fat: seq<Entry>, cs: seq<nat>)
    requires IsChain(fat, cs) && |cs| > 1
    ensures cs[0] !in cs[1..] && fat[cs[0]] == cs[1] && IsChain(fat[cs[0] := 0], cs[1..])
  {
    var c, rest := cs[0], cs[1..];
    forall i | 0 <= i < |rest|
      ensures rest[i] != c
    {
      NoRepeats(fat, cs, 0, i + 1);
    }
    forall i | 0 <= i < |rest| - 1
      ensures fat[c := 0][rest[i]] == rest[i + 1]
    {
      assert fat[cs[i + 1]] == cs[i + 2];
    }
  }

  /** A sound chain is freed whole. */
  lemma {:induction false} TrailOfChain(fat: seq<Entry>, cs: seq<nat>)
    requires IsChain(fat, cs) && InRange(fat)
    ensures Trail(fat, cs[0]) == Elems(cs) && |Elems(cs)| == |cs|
    decreases |cs|
  {
    hide IsChain, Elems, Used;
    ChainHead(fat, cs);
    UsedShrinks(fat, cs[0]);
    ElemsSplit(cs);
    if |cs| > 1 {
      RestOfChain(fat, cs);
      TrailOfChain(fat[cs[0] := 0], cs[1..]);
      InElems(cs[0], cs[1..]);
    } else {
      NoElems(cs[1..]);
    }
  }

  lemma ChainHead(fat: seq<Entry>, cs: seq<nat>)
    requires IsChain(fat, cs)
    ensures |cs| > 0 && 2 <= cs[0] < |fat| && cs[0] < READER_END && (|cs| == 1 ==> fat[cs[0]] >= READER_END)
  {
  }

  lemma InElems(c: nat, cs: seq<nat>)
    ensures c in Elems(cs) <==> c in cs
  {
  }

  lemma NoElems(cs: seq<nat>)
    requires cs == []
    ensures Elems(cs) == {}
  {
  }

  lemma ChainKept(fat: seq<Entry>, after: seq<Entry>, cs: seq<nat>)
    requires IsChain(fat, cs) && |after| == |fat|
    requires forall i :: 0 <= i < |cs| ==> after[cs[i]] == fat[cs[i]]
    ensures IsChain(after, cs)
  {
  }

  // ---- free clusters --------------------------------------------------------------------

  /** The free clusters below `k`, in order. */
  function Frees(fat: seq<Entry>, k: nat): (f: seq<nat>)
    requires k <= |fat|
    ensures |f| <= k && forall i :: 0 <= i < |f| ==> 2 <= f[i] < k && fat[f[i]] == 0
    ensures forall i, j :: 0 <= i < j < |f| ==> f[i] < f[j]
  {
    if k <= 2 then [] else if fat[k - 1] == 0 then Frees(fat, k - 1) + [k - 1] else Frees(fat, k - 1)
  }

  function FreeSet(fat: seq<Entry>): set<nat> { set c: nat | 2 <= c < |fat| && fat[c] == 0 }

  lemma {:induction false} FreesAreAll(fat: seq<Entry>, k: nat)
    requires k <= |fat|
    ensures forall c :: 2 <= c < k && fat[c] == 0 ==> c in Frees(fat, k)
  {
    if k > 2 { FreesAreAll(fat, k - 1); }
  }

  lemma {:induction false} SizeOfIncreasing(f: seq<nat>, s: set<nat>)
    requires forall i, j :: 0 <= i < j < |f| ==> f[i] < f[j]
    requires forall x :: x in s <==> x in f
    ensures |s| == |f|
  {
    if f == [] {
      assert s == {};
    } else {
      var last, front := f[|f| - 1], f[..|f| - 1];
      assert f == front + [last];
      SizeOfIncreasing(front, s - {last});
    }
  }

  predicate Increasing(f: seq<nat>) { forall i, j :: 0 <= i < j < |f| ==> f[i] < f[j] }

  lemma WithoutLast(f: seq<nat>, x: nat)
    requires f != [] && Increasing(f)
    ensures Increasing(f[..|f| - 1]) && (x in f[..|f| - 1] <==> x in f && x < f[|f| - 1])
    ensures x in f ==> x <= f[|f| - 1]
  {
    assert f == f[..|f| - 1] + [f[|f| - 1]];
  }

  /** Two increasing lists of the same numbers are one list. */
  lemma {:induction false} SameIncreasing(f: seq<nat>, g: seq<nat>)
    requires Increasing(f) && Increasing(g) && forall x :: x in f <==> x in g
    ensures f == g
  {
    hide Increasing;
    assert (f != [] ==> f[0] in g) && (g != [] ==> g[0] in f);
    if f != [] {
      var front, other := f[..|f| - 1], g[..|g| - 1];
      WithoutLast(f, g[|g| - 1]);
      WithoutLast(g, f[|f| - 1]);
      forall x
        ensures x in front <==> x in other
      {
        WithoutLast(f, x);
        WithoutLast(g, x);
      }
      SameIncreasing(front, other);
    }
  }

  lemma FreesCount(fat: seq<Entry>)
    ensures |Frees(fat, |fat|)| == |FreeSet(fat)|
  {
    FreesAreAll(fat, |fat|);
    SizeOfIncreasing(Frees(fat, |fat|), FreeSet(fat));
  }

  /** Clusters that can be linked: in range, and each above the one before. */
  predicate Usable(use: seq<nat>, n: nat) {
    && n <= 0xFFF
    && (forall i :: 0 <= i < |use| ==> 2 <= use[i] < n)
    && (forall i, j :: 0 <= i < j < |use| ==> use[i] < use[j])
  }

  /** The first `k` of the clusters taken, linked. */
  function LinkUp(fat: seq<Entry>, use: seq<nat>, k: nat): (r: seq<Entry>)
    requires k <= |use| && Usable(use, |fat|)
    ensures |r| == |fat|
  {
    if k == 0 then fat
    else LinkUp(fat, use, k - 1)[use[k - 1] := if k == |use| then END else use[k]]
  }

  /** Each cluster taken names the next, and the last ends the chain. */
  lemma {:induction false} LinkOfTaken(fat: seq<Entry>, use: seq<nat>, k: nat, i: nat)
    requires i < k <= |use| && Usable(use, |fat|)
    ensures LinkUp(fat, use, k)[use[i]] == if i + 1 == |use| then END else use[i + 1]
  {
    if i < k - 1 {
      LinkOfTaken(fat, use, k - 1, i);
      assert use[i] < use[k - 1];
    }
  }

  lemma {:induction false} LinkOfOther(fat: seq<Entry>, use: seq<nat>, k: nat, c: nat)
    requires k <= |use| && Usable(use, |fat|) && c < |fat| && c !in use
    ensures LinkUp(fat, use, k)[c] == fat[c]
  {
    if k > 0 { LinkOfOther(fat, use, k - 1, c); }
  }

  /** The clusters an edit takes: the first free ones. */
  function Taken(freed: seq<Entry>, need: nat): (use: seq<nat>)
    requires need <= |Frees(freed, |freed|)| && |freed| <= 0xFFF
    ensures |use| == need && Usable(use, |freed|)
    ensures forall i :: 0 <= i < need ==> freed[use[i]] == 0
  {
    Frees(freed, |freed|)[..need]
  }

  // ---- the whole edit, on the links --------------------------------------------------------

  lemma FreedSets(fat: seq<Entry>, c: nat)
    requires InRange(fat) && LinkOk(c, |fat|)
    ensures var back := Trail(fat, c) * Used(fat);
      FreeSet(Freed(fat, c)) == FreeSet(fat) + back && FreeSet(fat) * back == {}
  {
    hide Freed, Trail;
    TrailInside(fat, c);
    forall k | 0 <= k < |fat|
      ensures Freed(fat, c)[k] == if k in Trail(fat, c) then 0 else fat[k]
    {
      FreedExactly(fat, c, k);
    }
  }

  lemma TakenSets(freed: seq<Entry>, need: nat)
    requires need <= |Frees(freed, |freed|)| && |freed| <= 0xFFF
    ensures var use := Taken(freed, need);
      && FreeSet(LinkUp(freed, use, need)) == FreeSet(freed) - Elems(use)
      && Elems(use) <= FreeSet(freed) && |Elems(use)| == need
  {
    hide LinkUp, Taken, Frees;
    var use := Taken(freed, need);
    SizeOfIncreasing(use, Elems(use));
    var after := LinkUp(freed, use, need);
    forall c: nat | c < |freed|
      ensures c in use ==> after[c] != 0 && c in FreeSet(freed)
      ensures c !in use ==> after[c] == freed[c]
    {
      if c in use {
        var i :| 0 <= i < |use| && use[i] == c;
        LinkOfTaken(freed, use, need, i);
        assert freed[use[i]] == 0;
      } else {
        LinkOfOther(freed, use, need, c);
      }
    }
  }

  /** ROOM: once the old chain is back, the clusters free are those from before and
      the used ones of that chain. */
  lemma FreedCount(fat: seq<Entry>, c: nat)
    requires InRange(fat) && LinkOk(c, |fat|)
    ensures |Frees(Freed(fat, c), |fat|)| == |Frees(fat, |fat|)| + |Trail(fat, c) * Used(fat)|
  {
    hide Freed, Trail, Frees, FreeSet;
    FreesCount(fat);
    FreesCount(Freed(fat, c));
    FreedSets(fat, c);
  }

  /** FREE CLUSTERS: afterwards there are those from before, plus the old chain's
      used ones, less the clusters taken. */
  lemma FreeCount(fat: seq<Entry>, c: nat, need: nat)
    requires InRange(fat) && LinkOk(c, |fat|) && |fat| <= 0xFFF
    requires need <= |Frees(Freed(fat, c), |fat|)|
    ensures var freed := Freed(fat, c);
      var after := LinkUp(freed, Taken(freed, need), need);
      |Frees(after, |fat|)| == |Frees(fat, |fat|)| + |Trail(fat, c) * Used(fat)| - need
  {
    hide Freed, Trail, Frees, LinkUp, Taken, FreeSet, Elems;
    var freed := Freed(fat, c);
    FreedCount(fat, c);
    FreesCount(freed);
    TakenSets(freed, need);
    FreesCount(LinkUp(freed, Taken(freed, need), need));
    assert |FreeSet(freed) - Elems(Taken(freed, need))| == |FreeSet(freed)| - need;
  }

  /** A chain apart from the trail keeps every link: none of its clusters is freed or
      taken. */
  lemma OtherChainKept(fat: seq<Entry>, c: nat, need: nat, cs: seq<nat>)
    requires InRange(fat) && LinkOk(c, |fat|) && |fat| <= 0xFFF
    requires IsChain(fat, cs) && (forall i :: 0 <= i < |cs| ==> cs[i] !in Trail(fat, c))
    requires need <= |Frees(Freed(fat, c), |fat|)|
    ensures var freed := Freed(fat, c);
      var use := Taken(freed, need);
      && IsChain(LinkUp(freed, use, need), cs)
      && forall i :: 0 <= i < |cs| ==> cs[i] !in use
  {
    hide Freed, Trail, Frees, LinkUp, Taken;
    var freed := Freed(fat, c);
    var use := Taken(freed, need);
    forall i | 0 <= i < |cs|
      ensures cs[i] !in use && LinkUp(freed, use, need)[cs[i]] == fat[cs[i]]
    {
      FreedExactly(fat, c, cs[i]);
      assert fat[cs[i]] != 0 by { if i < |cs| - 1 { assert fat[cs[i]] == cs[i + 1]; } }
      LinkOfOther(freed, use, need, cs[i]);
    }
    ChainKept(fat, LinkUp(freed, use, need), cs);
  }
}
