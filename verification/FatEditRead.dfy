/** What a reader finds after tools/addfile.py: the new file, and every other file as
    before. */
module FatEditRead {
  import opened FatTable
  import opened FatVolume
  import opened FatImage
  import opened FatLinks
  import opened FatEdit
  import opened FatWriter

  // ---- names -------------------------------------------------------------------------

  function Clip(s: Bytes, n: nat): (c: Bytes)
    ensures |c| == n
  {
    if |s| >= n then s[..n] else s + Blanks(n - |s|)
  }

  /** What follows the first dot, up to the next. */
  function SecondPart(name: Bytes): Bytes {
    var k := FirstDot(name);
    if k == |name| then [] else name[k + 1..][..FirstDot(name[k + 1..])]
  }

  /** The eleven bytes an edit looks for and writes: cut to fit, never refused. */
  function EntName(name: Bytes): (e: Bytes)
    ensures |e| == 11
  {
    Upper(Clip(name[..FirstDot(name)], 8)) + Upper(Clip(SecondPart(name), 3))
  }

  lemma UpperClip(s: Bytes, n: nat)
    requires |s| <= n
    ensures Upper(Clip(s, n)) == Upper(s) + Blanks(n - |s|)
  {
  }

  lemma NoDotAfter(s: Bytes)
    ensures FirstDot(s) == |s| <==> DOT !in s
  {
    assert FirstDot(s) == |s| ==> s[..FirstDot(s)] == s;
  }

  /** The extension, cut off at a second dot, is the builder's unless there is one. */
  lemma ExtensionsAgreeExactly(rest: Bytes)
    requires |rest| <= 3
    ensures Upper(Clip(rest[..FirstDot(rest)], 3)) == Upper(rest) + Blanks(3 - |rest|) <==> DOT !in rest
  {
    hide FirstDot, Clip, Upper;
    NoDotAfter(rest);
    var d := FirstDot(rest);
    UpperClip(rest[..d], 3);
    if d == |rest| {
      assert rest[..d] == rest;
    } else {
      assert (Upper(rest[..d]) + Blanks(3 - d))[d] == BLANK;
      assert (Upper(rest) + Blanks(3 - |rest|))[d] == DOT;
    }
  }

  lemma SameHalves(a: Bytes, b: Bytes, c: Bytes, d: Bytes)
    requires |a| == |c|
    ensures a + b == c + d <==> a == c && b == d
  {
    if a + b == c + d {
      assert a == (a + b)[..|a|] && c == (c + d)[..|a|] && b == (a + b)[|a|..] && d == (c + d)[|a|..];
    }
  }

  lemma BuilderParts(name: Bytes)
    requires NameTo83(name).Some?
    ensures |Base(name)| <= 8 && |Ext(name)| <= 3
    ensures NameTo83(name).value == (Base(name) + Blanks(8 - |Base(name)|)) + (Ext(name) + Blanks(3 - |Ext(name)|))
  {
    hide FirstDot, Upper, Base, Ext, Blanks;
  }

  lemma EditorParts(name: Bytes)
    requires |Base(name)| <= 8
    ensures EntName(name) == (Base(name) + Blanks(8 - |Base(name)|)) + Upper(Clip(SecondPart(name), 3))
  {
    hide FirstDot, Upper, Clip, SecondPart, Blanks;
    UpperClip(name[..FirstDot(name)], 8);
  }

  /** The editor and the builder agree on a name the builder takes if and only if it
      has at most one dot. */
  lemma NamesAgreeExactly(name: Bytes)
    requires NameTo83(name).Some?
    ensures EntName(name) == NameTo83(name).value <==>
            (FirstDot(name) == |name| || DOT !in name[FirstDot(name) + 1..])
  {
    hide FirstDot, Upper, Clip, NameTo83, EntName, Blanks, Base;
    BuilderParts(name);
    EditorParts(name);
    var base := Base(name) + Blanks(8 - |Base(name)|);
    SameHalves(base, Ext(name) + Blanks(3 - |Ext(name)|), base, Upper(Clip(SecondPart(name), 3)));
    if FirstDot(name) < |name| {
      ExtensionsAgreeExactly(name[FirstDot(name) + 1..]);
    } else {
      UpperClip([], 3);
    }
  }

  /** `A.B.C` is such a name: stored as A and B.C by the builder, as A and B by the
      editor, which so never finds it. */
  lemma TwoDotsDisagree()
    ensures var name := [0x41, DOT, 0x42, DOT, 0x43];
      NameTo83(name).Some? && EntName(name) != NameTo83(name).value && SecondPart(name) == [0x42]
  {
    hide EntName, Upper, Clip;
    var name: Bytes := [0x41, DOT, 0x42, DOT, 0x43];
    assert FirstDot(name) == 1;
    var rest := name[2..];
    assert rest == [0x42, DOT, 0x43] && rest[1..] == [DOT, 0x43];
    assert FirstDot(rest) == 1;
    NamesAgreeExactly(name);
  }

  // ---- walks -------------------------------------------------------------------------

  /** One round of a reader's walk, on the links. */
  lemma WalkStep(s: Bytes, h: Header, fat: seq<Entry>, t: Bytes, c: nat, blob: Bytes, size: nat)
    requires Disk(s, h, fat, t) && 2 <= c < READER_END && c < |fat|
    ensures var cb := ClusterSize(h);
      && HCluster(h, c) + cb <= |s|
      && ReadChain(s, h, c, blob, size)
           == if |blob| < size + cb then ReadChain(s, h, fat[c], blob + s[HCluster(h, c)..HCluster(h, c) + cb], size)
              else Some(blob)
  {
    hide Get, Holds, HCluster, CopyAt, HRoot, Shaped;
    DiskRoom(s, h, fat, t);
    ClusterWithin(h, c, |fat|);
    FirstCopy(s, h, t);
    assert Holds(t, c) && Get(t, c) == fat[c];
  }

  lemma FirstCopy(s: Bytes, h: Header, t: Bytes)
    requires Copies(s, h, t) && h.fats > 0
    ensures (h.reserved + h.spf) * SECTOR <= |s| && s[h.reserved * SECTOR..(h.reserved + h.spf) * SECTOR] == t
  {
    assert CopyAt(h, 0) == h.reserved * SECTOR;
    assert Slice(s, CopyAt(h, 0), t);
  }

  lemma WalkEnds(s: Bytes, h: Header, c: nat, blob: Bytes, size: nat)
    requires !(2 <= c < READER_END)
    ensures ReadChain(s, h, c, blob, size) == Some(blob)
  {
  }

  /** A chain whose links and clusters are the same reads the same. */
  lemma {:induction false} SameWalk(s: Bytes, was: Bytes, h: Header, fat: seq<Entry>, t: Bytes,
                                    after: seq<Entry>, u: Bytes, cs: seq<nat>, i: nat, blob: Bytes, size: nat)
    requires Disk(was, h, fat, t) && Disk(s, h, after, u) && |after| == |fat|
    requires IsChain(fat, cs) && IsChain(after, cs) && i < |cs|
    requires forall k :: 0 <= k < |cs| ==> SameCluster(s, was, h, cs[k])
    ensures ReadChain(was, h, cs[i], blob, size).Some?
    ensures ReadChain(s, h, cs[i], blob, size) == ReadChain(was, h, cs[i], blob, size)
    decreases |cs| - i
  {
    hide Disk, ReadChain, HCluster, SameCluster;
    WalkStep(was, h, fat, t, cs[i], blob, size);
    WalkStep(s, h, after, u, cs[i], blob, size);
    assert SameCluster(s, was, h, cs[i]);
    SameBytes(s, was, h, cs[i]);
    var more := blob + s[HCluster(h, cs[i])..HCluster(h, cs[i]) + ClusterSize(h)];
    if i < |cs| - 1 {
      SameWalk(s, was, h, fat, t, after, u, cs, i + 1, more, size);
    } else {
      WalkEnds(s, h, after[cs[i]], more, size);
      WalkEnds(was, h, fat[cs[i]], more, size);
    }
  }

  lemma SameBytes(s: Bytes, was: Bytes, h: Header, c: nat)
    requires c >= 2 && SameCluster(s, was, h, c)
    ensures HCluster(h, c) + ClusterSize(h) <= |s| == |was|
    ensures s[HCluster(h, c)..HCluster(h, c) + ClusterSize(h)] == was[HCluster(h, c)..HCluster(h, c) + ClusterSize(h)]
  {
    hide HCluster;
  }

  /** A file that an edit freeing the chain at `c` must leave alone: no clusters, or a
      sound chain apart from the one freed. */
  ghost predicate Apart(fat: seq<Entry>, c: nat, first: nat)
    requires InRange(fat) && LinkOk(c, |fat|)
  {
    !(2 <= first < READER_END) || exists cs :: ChainApart(fat, c, first, cs)
  }

  predicate ChainApart(fat: seq<Entry>, c: nat, first: nat, cs: seq<nat>)
    requires InRange(fat) && LinkOk(c, |fat|)
  {
    IsChain(fat, cs) && cs[0] == first && forall i :: 0 <= i < |cs| ==> cs[i] !in Trail(fat, c)
  }

  /** OTHER FILES ARE UNTOUCHED: they read the same before and after. */
  lemma OtherFileReads(s: Bytes, was: Bytes, h: Header, fat: seq<Entry>, t: Bytes, c: nat, at: nat,
                       ent: Bytes, body: Bytes, first: nat, size: nat)
    requires Disk(was, h, fat, t) && InRange(fat) && LinkOk(c, |fat|) && |ent| == 11
    requires |fat| <= 0xFFF && ClusterSize(h) > 0 && Edited(s, was, h, fat, c, at, ent, body)
    requires Apart(fat, c, first)
    ensures ReadChain(was, h, first, [], size).Some?
    ensures ReadChain(s, h, first, [], size) == ReadChain(was, h, first, [], size)
  {
    hide Disk, ReadChain, Freed, Trail, Frees, LinkUp, IsChain, Need, Chunk, HCluster, HRoot, NewEntry, ClusterSize;
    hide OtherEntries, Slice, SameCluster, CopyAt, Taken;
    if 2 <= first < READER_END {
      var cs :| ChainApart(fat, c, first, cs);
      ChainBounds(fat, cs);
      var freed, need := Freed(fat, c), Need(|body|, ClusterSize(h));
      var use := Taken(freed, need);
      OtherChainKept(fat, c, need, cs);
      var u :| Disk(s, h, LinkUp(freed, use, need), u);
      forall k | 0 <= k < |cs|
        ensures SameCluster(s, was, h, cs[k])
      {
        assert use[..need] == use;
      }
      SameWalk(s, was, h, fat, t, LinkUp(freed, use, need), u, cs, 0, [], size);
    } else {
      WalkEnds(s, h, first, [], size);
      WalkEnds(was, h, first, [], size);
    }
  }

  lemma ChainBounds(fat: seq<Entry>, cs: seq<nat>)
    requires IsChain(fat, cs)
    ensures |cs| > 0 && forall i :: 0 <= i < |cs| ==> 2 <= cs[i] < |fat|
  {
  }

  /** The walk over the clusters taken, up to `r`, the first numbered FF0 or above. */
  lemma {:induction false} NewWalk(s: Bytes, h: Header, links: seq<Entry>, u: Bytes, use: seq<nat>, body: Bytes,
                                   i: nat, r: nat)
    requires Disk(s, h, links, u) && Usable(use, |links|) && |use| == NeedFor(h, body)
    requires forall k :: 0 <= k < |use| ==> links[use[k]] == if k + 1 == |use| then END else use[k + 1]
    requires forall k :: 0 <= k < |use| ==> Slice(s, HCluster(h, use[k]), Chunk(body, k, ClusterSize(h)))
    requires i <= r <= |use| && (forall k :: 0 <= k < r ==> use[k] < READER_END) && (r < |use| ==> use[r] >= READER_END)
    ensures ReadChain(s, h, if i < |use| then use[i] else END, Chunks(body, ClusterSize(h), i), |body|)
         == Some(Chunks(body, ClusterSize(h), r))
    decreases r - i
  {
    hide Disk, ReadChain, HCluster, Need, Slice, Chunk, ClusterSize;
    var cb := ClusterSize(h);
    if i == r {
      WalkEnds(s, h, if i < |use| then use[i] else END, Chunks(body, cb, i), |body|);
    } else {
      WalkStep(s, h, links, u, use[i], Chunks(body, cb, i), |body|);
      SizesOf(h, links, s, u, body);
      MulMono(i, |use| - 1, cb);
      ClusterHolds(s, h, use[i], Chunk(body, i, cb));
      NewWalk(s, h, links, u, use, body, i + 1, r);
    }
  }

  function NeedFor(h: Header, body: Bytes): nat {
    if ClusterSize(h) == 0 then 0 else Need(|body|, ClusterSize(h))
  }

  lemma SizesOf(h: Header, links: seq<Entry>, s: Bytes, u: Bytes, body: Bytes)
    requires Disk(s, h, links, u)
    ensures ClusterSize(h) > 0 && NeedFor(h, body) >= 1
    ensures (NeedFor(h, body) - 1) * ClusterSize(h) <= |body|
  {
    hide Copies, TableOf, Need;
    NeedCovers(|body|, ClusterSize(h));
  }

  lemma ClusterHolds(s: Bytes, h: Header, c: nat, data: Bytes)
    requires c >= 2 && Slice(s, HCluster(h, c), data) && |data| == ClusterSize(h)
    ensures HCluster(h, c) + ClusterSize(h) <= |s|
    ensures s[HCluster(h, c)..HCluster(h, c) + ClusterSize(h)] == data
  {
    hide HCluster;
  }

  /** How many of the clusters taken come before the first numbered FF0 or above. */
  function Low(use: seq<nat>): (r: nat)
    ensures r <= |use| && (forall k :: 0 <= k < r ==> use[k] < READER_END) && (r < |use| ==> use[r] >= READER_END)
  {
    if use == [] || use[0] >= READER_END then 0
    else
      var r := Low(use[1..]);
      assert forall k :: 0 < k < r + 1 ==> use[k] == use[1..][k - 1];
      1 + r
  }

  /** What a reader cuts a file's clusters down to. */
  function Cut(blob: Bytes, size: nat): Bytes { if |blob| < size then blob else blob[..size] }

  /** THE NEW FILE READS BACK, EXACTLY when it is empty or its last cluster, which is
      its highest, is numbered below FF0. */
  lemma NewFileReadsExactly(s: Bytes, was: Bytes, h: Header, fat: seq<Entry>, c: nat, at: nat, ent: Bytes, body: Bytes)
    requires InRange(fat) && LinkOk(c, |fat|) && |ent| == 11
    requires |fat| <= 0xFFF && ClusterSize(h) > 0 && Edited(s, was, h, fat, c, at, ent, body)
    ensures var use := Taken(Freed(fat, c), Need(|body|, ClusterSize(h)));
      var blob := ReadChain(s, h, use[0], [], |body|);
      && blob.Some?
      && (Cut(blob.value, |body|) == body <==> |body| == 0 || use[|use| - 1] < READER_END)
  {
    hide Disk, ReadChain, Freed, Frees, LinkUp, Chunk, HCluster, HRoot, NewEntry, Taken, Need;
    hide OtherEntries, Slice, SameCluster, CopyAt, ClusterSize;
    var freed, cb := Freed(fat, c), ClusterSize(h);
    var need := Need(|body|, cb);
    var use := Taken(freed, need);
    var links := LinkUp(freed, use, need);
    var u :| Disk(s, h, links, u);
    forall k | 0 <= k < |use|
      ensures links[use[k]] == if k + 1 == |use| then END else use[k + 1]
    {
      LinkOfTaken(freed, use, need, k);
    }
    var r := Low(use);
    NewWalk(s, h, links, u, use, body, 0, r);
    CutExactly(body, cb, need, r);
    assert r < need ==> use[need - 1] >= READER_END by {
      if r < need - 1 { assert use[r] < use[need - 1]; }
    }
  }

  lemma CutExactly(body: Bytes, cb: nat, need: nat, r: nat)
    requires cb > 0 && need == Need(|body|, cb) && r <= need
    ensures Cut(Chunks(body, cb, r), |body|) == body <==> |body| == 0 || r == need
  {
    hide Need, Chunks;
    NeedCovers(|body|, cb);
    ChunksStartWithData(body, cb, r);
    assert body[..|body|] == body;
    if r < need {
      MulMono(r, need - 1, cb);
    }
  }
}
