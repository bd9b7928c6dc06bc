/** tools/addfile.py: one file added to a FAT12 image, or replaced, in place. */
module FatEdit {
  import opened FatTable
  import opened FatVolume
  import opened FatImage
  import opened FatLinks
  import FatWriter

  // ---- where things are ------------------------------------------------------------------

  function CopyAt(h: Header, f: nat): nat { (h.reserved + f * h.spf) * SECTOR }
  function EntryAt(h: Header, i: nat): nat { HRoot(h) + i * DIR_ENTRY }
  function ClusterSize(h: Header): nat { h.spc * SECTOR }

  /** How many clusters the boot sector says there are: a 16-bit count of sectors,
      or a 32-bit one where that is zero. */
  function ClustersOn(img: Bytes, h: Header): (n: int)
    requires |img| >= 36 && h.spc > 0
  {
    var small := Le16(img[19], img[20]);
    ((if small != 0 then small else Le32Value(img[32..36])) - HData(h)) / h.spc
  }

  /** An image of `len` bytes has room for all its header describes: `n` entries in
      each FAT, and clusters 2 to n - 1. */
  predicate Shaped(len: nat, h: Header, n: nat) {
    && h.reserved > 0 && h.fats > 0 && 0 < h.spc < 0x100
    && 2 <= n <= 0xFFF && OffsetOf(n - 1) + 1 < h.spf * SECTOR
    && HCluster(h, n) <= len
  }

  lemma CopiesApart(h: Header, f: nat, g: nat)
    requires f < g
    ensures CopyAt(h, f) + h.spf * SECTOR <= CopyAt(h, g)
  {
    MulMono(f + 1, g, h.spf);
  }

  lemma CopiesEnd(h: Header)
    ensures CopyAt(h, h.fats) == HRoot(h)
  {
  }

  lemma CopyInside(h: Header, f: nat)
    requires f < h.fats
    ensures CopyAt(h, 0) <= CopyAt(h, f) && CopyAt(h, f) + h.spf * SECTOR <= HRoot(h)
  {
    CopiesApart(h, f, h.fats);
    CopiesEnd(h);
    if f > 0 { CopiesApart(h, 0, f); }
  }

  lemma EntryInside(h: Header, i: nat)
    requires i < h.rootEntries
    ensures HRoot(h) <= EntryAt(h, i) && EntryAt(h, i) + DIR_ENTRY <= HCluster(h, 2)
  {
  }

  lemma ClusterOrder(h: Header, c: nat, d: nat)
    requires 2 <= c < d
    ensures HCluster(h, c) + ClusterSize(h) <= HCluster(h, d)
  {
    MulMono(c - 1, d - 2, h.spc);
  }

  lemma ClusterWithin(h: Header, c: nat, n: nat)
    requires 2 <= c < n
    ensures HCluster(h, 2) <= HCluster(h, c) && HCluster(h, c) + ClusterSize(h) <= HCluster(h, n)
  {
    ClusterOrder(h, c, n);
    if c > 2 { ClusterOrder(h, 2, c); }
  }

  lemma RootBeforeData(h: Header)
    ensures HRoot(h) <= HCluster(h, 2)
  {
  }

  // ---- the FAT copies ---------------------------------------------------------------------

  /** Every copy of the FAT is the table `t`. */
  predicate Copies(s: Bytes, h: Header, t: Bytes) {
    |t| == h.spf * SECTOR && forall f :: 0 <= f < h.fats ==> Slice(s, CopyAt(h, f), t)
  }

  /** The image `s` holds the links `fat`, in equal copies of the table `t`. */
  predicate Disk(s: Bytes, h: Header, fat: seq<Entry>, t: Bytes) {
    Shaped(|s|, h, |fat|) && Copies(s, h, t) && TableOf(t, fat)
  }

  lemma TablePut(t: Bytes, fat: seq<Entry>, c: nat, e: Entry)
    requires TableOf(t, fat) && c < |fat|
    ensures Holds(t, c) && TableOf(Put(t, c, e), fat[c := e])
  {
    hide Put, Get, Holds;
    assert Holds(t, c) && Get(t, c) == fat[c];
    SameHolds(t, Put(t, c, e));
    forall d | 0 <= d < |fat|
      ensures Holds(Put(t, c, e), d) && Get(Put(t, c, e), d) == fat[c := e][d]
    {
      assert Holds(t, d) && Get(t, d) == fat[d];
      if d == c { PutSame(t, c, e); } else { PutOther(t, c, e, d); }
    }
  }

  lemma SameHolds(t: Bytes, u: Bytes)
    requires |t| == |u|
    ensures forall c: nat :: Holds(t, c) ==> Holds(u, c)
  {
  }

  lemma CopiesSame(s: Bytes, was: Bytes, h: Header, t: Bytes)
    requires Copies(was, h, t) && Same(s, was, CopyAt(h, 0), HRoot(h))
    ensures Copies(s, h, t)
  {
    hide Slice, CopyAt, HRoot;
    forall f | 0 <= f < h.fats
      ensures Slice(s, CopyAt(h, f), t)
    {
      CopyInside(h, f);
      assert Slice(was, CopyAt(h, f), t);
      SliceStays(s, was, CopyAt(h, f), t);
    }
  }

  lemma DiskRoom(s: Bytes, h: Header, fat: seq<Entry>, t: Bytes)
    requires Disk(s, h, fat, t)
    ensures 2 <= |fat| <= 0xFFF && h.fats > 0 && 0 < h.spc < 0x100
    ensures CopyAt(h, 0) <= HRoot(h) <= HCluster(h, 2) <= HCluster(h, |fat|) <= |s|
    ensures HRoot(h) + h.rootEntries * DIR_ENTRY <= HCluster(h, 2)
  {
    hide Copies, TableOf, CopyAt, HRoot, HCluster;
    CopyInside(h, 0);
    RootBeforeData(h);
    RootEnd(h);
    if |fat| > 2 { ClusterOrder(h, 2, |fat|); }
  }

  lemma RootEnd(h: Header)
    ensures HRoot(h) + h.rootEntries * DIR_ENTRY <= HCluster(h, 2)
  {
  }

  method GetEntry(img: array<Octet>, h: Header, c: nat, ghost fat: seq<Entry>, ghost t: Bytes) returns (e: Entry)
    requires Disk(img[..], h, fat, t) && c < |fat|
    ensures e == fat[c]
  {
    hide Get, CopyAt, HRoot, Shaped;
    DiskRoom(img[..], h, fat, t);
    CopyInside(h, 0);
    assert Slice(img[..], CopyAt(h, 0), t);
    assert Holds(t, c) && Get(t, c) == fat[c];
    var at := CopyAt(h, 0) + OffsetOf(c);
    assert img[..][CopyAt(h, 0)..CopyAt(h, 0) + |t|] == t;
    assert img[at] == t[OffsetOf(c)] && img[at + 1] == t[OffsetOf(c) + 1];
    GetFromBytes(t, c);
    var v := Le16(img[at], img[at + 1]);
    e := if c % 2 == 1 then v / 16 else v % 0x1000;
  }

  lemma GetFromBytes(t: Bytes, c: nat)
    requires Holds(t, c)
    ensures var v := Le16(t[OffsetOf(c)], t[OffsetOf(c) + 1]);
      v < 0x1_0000 && Get(t, c) == if c % 2 == 1 then v / 16 else v % 0x1000
  {
  }

  /** One copy's two bytes. */
  method PutCopy(img: array<Octet>, at: nat, c: nat, e: Entry, w: nat, ghost t: Bytes)
    requires Slice(img[..], at, t) && Holds(t, c) && w == Replaced(Pair(t, c), c, e)
    modifies img
    ensures Slice(img[..], at, Put(t, c, e))
    ensures forall k :: 0 <= k < img.Length && !(at <= k < at + |t|) ==> img[k] == old(img[k])
  {
    hide Replaced, Pair, OffsetOf;
    ghost var was := img[..];
    assert was[at..at + |t|] == t;
    img[at + OffsetOf(c)] := w % 0x100;
    img[at + OffsetOf(c) + 1] := w / 0x100;
    forall k | 0 <= k < |t|
      ensures img[at + k] == Put(t, c, e)[k]
    {
      assert was[at..at + |t|][k] == was[at + k];
    }
    assert img[..][at..at + |t|] == Put(t, c, e);
  }

  /** `put`: every copy, not just the first. */
  method PutEntry(img: array<Octet>, h: Header, c: nat, e: Entry, ghost fat: seq<Entry>, ghost t: Bytes)
    requires Disk(img[..], h, fat, t) && c < |fat|
    modifies img
    ensures Holds(t, c) && Disk(img[..], h, fat[c := e], Put(t, c, e))
    ensures Same(img[..], old(img[..]), 0, CopyAt(h, 0))
    ensures Same(img[..], old(img[..]), HRoot(h), img.Length)
  {
    hide Put, Get, Replaced, CopyAt, HRoot, HCluster, Slice, OffsetOf, Holds;
    TablePut(t, fat, c, e);
    DiskRoom(img[..], h, fat, t);
    var w := NewPair(img, h, c, e, fat, t);
    for f := 0 to h.fats
      invariant forall g :: 0 <= g < f ==> Slice(img[..], CopyAt(h, g), Put(t, c, e))
      invariant forall g :: f <= g < h.fats ==> Slice(img[..], CopyAt(h, g), t)
      invariant Same(img[..], old(img[..]), 0, CopyAt(h, 0))
      invariant Same(img[..], old(img[..]), HRoot(h), img.Length)
    {
      CopyInside(h, f);
      ghost var was := img[..];
      assert Slice(img[..], CopyAt(h, f), t);
      PutCopy(img, CopyAt(h, f), c, e, w, t);
      OtherCopies(img[..], was, h, f, t, Put(t, c, e));
    }
  }

  method NewPair(img: array<Octet>, h: Header, c: nat, e: Entry, ghost fat: seq<Entry>, ghost t: Bytes) returns (w: nat)
    requires Disk(img[..], h, fat, t) && c < |fat|
    ensures Holds(t, c) && w == Replaced(Pair(t, c), c, e)
  {
    hide Get, CopyAt, HRoot, HCluster, Replaced;
    CopyInside(h, 0);
    assert Slice(img[..], CopyAt(h, 0), t);
    assert Holds(t, c) && Get(t, c) == fat[c];
    var at := CopyAt(h, 0) + OffsetOf(c);
    assert img[..][CopyAt(h, 0)..CopyAt(h, 0) + |t|] == t;
    assert img[at] == t[OffsetOf(c)] && img[at + 1] == t[OffsetOf(c) + 1];
    w := Replaced(Le16(img[at], img[at + 1]), c, e);
  }

  lemma OtherCopies(s: Bytes, was: Bytes, h: Header, f: nat, t: Bytes, u: Bytes)
    requires |t| == |u| == h.spf * SECTOR && |s| == |was| && f < h.fats
    requires forall g :: 0 <= g < f ==> Slice(was, CopyAt(h, g), u)
    requires forall g :: f <= g < h.fats ==> Slice(was, CopyAt(h, g), t)
    requires forall k :: 0 <= k < |s| && !(CopyAt(h, f) <= k < CopyAt(h, f) + |t|) ==> s[k] == was[k]
    ensures forall g :: 0 <= g < f ==> Slice(s, CopyAt(h, g), u)
    ensures forall g :: f < g < h.fats ==> Slice(s, CopyAt(h, g), t)
  {
    hide CopyAt, Slice;
    forall g | 0 <= g < f
      ensures Slice(s, CopyAt(h, g), u)
    {
      CopiesApart(h, g, f);
      assert Slice(was, CopyAt(h, g), u);
      SliceBounds(was, CopyAt(h, g), u);
      SliceStays(s, was, CopyAt(h, g), u);
    }
    forall g | f < g < h.fats
      ensures Slice(s, CopyAt(h, g), t)
    {
      CopiesApart(h, f, g);
      assert Slice(was, CopyAt(h, g), t);
      SliceBounds(was, CopyAt(h, g), t);
      SliceStays(s, was, CopyAt(h, g), t);
    }
  }

  lemma SliceBounds(s: Bytes, at: nat, data: Bytes)
    requires Slice(s, at, data)
    ensures at + |data| <= |s|
  {
  }

  // ---- freeing and searching -----------------------------------------------------------------

  method FreeChain(img: array<Octet>, h: Header, first: nat, ghost fat: seq<Entry>, ghost t: Bytes)
      returns (ghost u: Bytes)
    requires Disk(img[..], h, fat, t) && InRange(fat) && LinkOk(first, |fat|)
    modifies img
    ensures Disk(img[..], h, Freed(fat, first), u)
    ensures Same(img[..], old(img[..]), 0, CopyAt(h, 0))
    ensures Same(img[..], old(img[..]), HRoot(h), img.Length)
  {
    hide Put, Get, CopyAt, HRoot, Copies, TableOf, Shaped;
    u := t;
    ghost var cur := fat;
    var c: nat := first;
    DiskRoom(img[..], h, fat, t);
    while 2 <= c < READER_END
      invariant |cur| == |fat| && InRange(cur) && LinkOk(c, |cur|)
      invariant Freed(cur, c) == Freed(fat, first)
      invariant Disk(img[..], h, cur, u)
      invariant Same(img[..], old(img[..]), 0, CopyAt(h, 0))
      invariant Same(img[..], old(img[..]), HRoot(h), img.Length)
      decreases |Used(cur)|, c
    {
      var next := GetEntry(img, h, c, cur, u);
      PutEntry(img, h, c, 0, cur, u);
      UsedShrinks(cur, c);
      u := Put(u, c, 0);
      cur := cur[c := 0];
      c := next;
    }
  }

  method FreeList(img: array<Octet>, h: Header, n: nat, ghost fat: seq<Entry>, ghost t: Bytes) returns (free: seq<nat>)
    requires Disk(img[..], h, fat, t) && n == |fat|
    ensures free == Frees(fat, n)
  {
    hide Disk, Get;
    free := [];
    var c := 2;
    DiskRoom(img[..], h, fat, t);
    while c < n
      invariant 2 <= c <= n && free == Frees(fat, c)
    {
      var e := GetEntry(img, h, c, fat, t);
      if e == 0 { free := free + [c]; }
      c := c + 1;
    }
  }

  // ---- the directory ----------------------------------------------------------------------

  /** Entry `at` of the root directory; `found` if it holds this very name. */
  datatype Slot = Slot(at: nat, found: bool)

  function NameAt(s: Bytes, h: Header, i: nat): Bytes
    requires EntryAt(h, i) + DIR_ENTRY <= |s|
  {
    s[EntryAt(h, i)..EntryAt(h, i) + 11]
  }

  predicate Unused(s: Bytes, h: Header, i: nat)
    requires EntryAt(h, i) + DIR_ENTRY <= |s|
  {
    s[EntryAt(h, i)] == 0x00 || s[EntryAt(h, i)] == 0xE5
  }

  function FirstAt(s: Bytes, h: Header, i: nat): nat
    requires EntryAt(h, i) + DIR_ENTRY <= |s|
  {
    Le16(s[EntryAt(h, i) + 26], s[EntryAt(h, i) + 27])
  }

  predicate RootInImage(s: Bytes, h: Header) { HRoot(h) + h.rootEntries * DIR_ENTRY <= |s| }

  /** The first entry with the name; failing that, the first unused one; or none. */
  predicate IsSlot(s: Bytes, h: Header, ent: Bytes, r: Option<Slot>)
    requires RootInImage(s, h)
  {
    match r
    case Some(slot) =>
      && slot.at < h.rootEntries
      && (if slot.found then
            && NameAt(s, h, slot.at) == ent
            && forall i :: 0 <= i < slot.at ==> NameAt(s, h, i) != ent
          else
            && Unused(s, h, slot.at)
            && (forall i :: 0 <= i < slot.at ==> !Unused(s, h, i))
            && forall i :: 0 <= i < h.rootEntries ==> NameAt(s, h, i) != ent)
    case None => forall i :: 0 <= i < h.rootEntries ==> NameAt(s, h, i) != ent && !Unused(s, h, i)
  }

  method FindSlot(img: array<Octet>, h: Header, ent: Bytes) returns (r: Option<Slot>)
    requires RootInImage(img[..], h)
    ensures IsSlot(img[..], h, ent, r)
  {
    hide HRoot;
    var s := img[..];
    r := None;
    var i := 0;
    while i < h.rootEntries
      invariant i <= h.rootEntries
      invariant forall j :: 0 <= j < i ==> NameAt(s, h, j) != ent
      invariant r.None? ==> forall j :: 0 <= j < i ==> !Unused(s, h, j)
      invariant r.Some? ==> !r.value.found && r.value.at < i && Unused(s, h, r.value.at)
      invariant r.Some? ==> forall j :: 0 <= j < r.value.at ==> !Unused(s, h, j)
    {
      if NameAt(s, h, i) == ent { return Some(Slot(i, true)); }
      if r.None? && Unused(s, h, i) { r := Some(Slot(i, false)); }
      i := i + 1;
    }
  }

  // ---- the new file's clusters ---------------------------------------------------------------

  predicate SameCluster(s: Bytes, was: Bytes, h: Header, c: nat)
    requires c >= 2
  {
    Same(s, was, HCluster(h, c), HCluster(h, c) + ClusterSize(h))
  }

  /** The first `k` clusters taken hold the file; the others are as they were. */
  predicate Written(s: Bytes, was: Bytes, h: Header, n: nat, use: seq<nat>, body: Bytes, k: nat)
    requires k <= |use| && forall i :: 0 <= i < |use| ==> use[i] >= 2
  {
    && |s| == |was|
    && (forall i :: 0 <= i < k ==> Slice(s, HCluster(h, use[i]), Chunk(body, i, ClusterSize(h))))
    && (forall c :: 2 <= c < n && c !in use[..k] ==> SameCluster(s, was, h, c))
  }

  lemma ChunkParts(body: Bytes, i: nat, cb: nat)
    ensures var lo := if i * cb < |body| then i * cb else |body|;
      var hi := if (i + 1) * cb < |body| then (i + 1) * cb else |body|;
      && lo <= hi && hi - lo <= cb
      && Chunk(body, i, cb) == body[lo..hi] + Zeros(cb - (hi - lo))
  {
    MulNext(i, cb);
    var at := i * cb;
    assert Chunk(body, i, cb) == ChunkFrom(body, at, cb);
    if at + cb <= |body| {
      assert body[at..at + cb] == body[at..at + cb] + Zeros(0);
    } else if at > |body| {
      assert Zeros(cb) == body[|body|..|body|] + Zeros(cb);
    }
  }

  /** Zeros first, then the file's part. */
  method WriteCluster(img: array<Octet>, h: Header, c: nat, body: Bytes, i: nat)
    requires c >= 2 && HCluster(h, c) + ClusterSize(h) <= img.Length
    modifies img
    ensures Slice(img[..], HCluster(h, c), Chunk(body, i, ClusterSize(h)))
    ensures forall k :: 0 <= k < img.Length && !(HCluster(h, c) <= k < HCluster(h, c) + ClusterSize(h))
              ==> img[k] == old(img[k])
  {
    hide HCluster, ClusterSize, Chunk, Slice;
    var off, cb := HCluster(h, c), ClusterSize(h);
    ChunkParts(body, i, cb);
    var lo := if i * cb < |body| then i * cb else |body|;
    var hi := if (i + 1) * cb < |body| then (i + 1) * cb else |body|;
    FatWriter.CopyIn(img, off, Zeros(cb));
    ghost var was := img[..];
    FatWriter.CopyIn(img, off, body[lo..hi]);
    Overlay(img[..], was, off, cb, body[lo..hi]);
  }

  lemma Overlay(s: Bytes, was: Bytes, off: nat, cb: nat, part: Bytes)
    requires Slice(was, off, Zeros(cb)) && Slice(s, off, part) && |part| <= cb && |s| == |was|
    requires forall k :: 0 <= k < |s| && !(off <= k < off + |part|) ==> s[k] == was[k]
    ensures Slice(s, off, part + Zeros(cb - |part|))
  {
    var want := part + Zeros(cb - |part|);
    forall x | 0 <= x < cb
      ensures s[off + x] == want[x]
    {
      assert s[off..off + |part|] == part && was[off..off + cb] == Zeros(cb);
      if x < |part| {
        assert s[off..off + |part|][x] == s[off + x];
      } else {
        assert was[off..off + cb][x] == was[off + x];
      }
    }
    assert s[off..off + cb] == want;
  }

  lemma OneMoreWritten(s: Bytes, mid: Bytes, was: Bytes, h: Header, n: nat, use: seq<nat>, body: Bytes, k: nat)
    requires Usable(use, n) && k < |use| && |s| == |mid|
    requires Written(mid, was, h, n, use, body, k)
    requires Slice(s, HCluster(h, use[k]), Chunk(body, k, ClusterSize(h)))
    requires forall x :: 0 <= x < |s| && !(HCluster(h, use[k]) <= x < HCluster(h, use[k]) + ClusterSize(h))
               ==> s[x] == mid[x]
    requires HCluster(h, n) <= |s|
    ensures Written(s, was, h, n, use, body, k + 1)
  {
    hide HCluster, ClusterSize, Chunk, Slice;
    forall i | 0 <= i < k + 1
      ensures Slice(s, HCluster(h, use[i]), Chunk(body, i, ClusterSize(h)))
    {
      if i < k {
        ClusterOrder(h, use[i], use[k]);
        assert Slice(mid, HCluster(h, use[i]), Chunk(body, i, ClusterSize(h)));
        SliceBounds(mid, HCluster(h, use[i]), Chunk(body, i, ClusterSize(h)));
        SliceStays(s, mid, HCluster(h, use[i]), Chunk(body, i, ClusterSize(h)));
      }
    }
    forall c | 2 <= c < n && c !in use[..k + 1]
      ensures SameCluster(s, was, h, c)
    {
      assert use[..k + 1][k] == use[k];
      assert c != use[k] && c !in use[..k];
      assert SameCluster(mid, was, h, c);
      if c < use[k] { ClusterOrder(h, c, use[k]); } else { ClusterOrder(h, use[k], c); }
      ClusterWithin(h, c, n);
    }
  }

  lemma WrittenStays(s: Bytes, mid: Bytes, was: Bytes, h: Header, n: nat, use: seq<nat>, body: Bytes, k: nat)
    requires k <= |use| && Usable(use, n) && Written(mid, was, h, n, use, body, k)
    requires Same(s, mid, HCluster(h, 2), |s|)
    ensures Written(s, was, h, n, use, body, k)
  {
    hide HCluster, ClusterSize, Chunk, Slice;
    forall i | 0 <= i < k
      ensures Slice(s, HCluster(h, use[i]), Chunk(body, i, ClusterSize(h)))
    {
      ClusterWithin(h, use[i], n);
      assert Slice(mid, HCluster(h, use[i]), Chunk(body, i, ClusterSize(h)));
      SliceBounds(mid, HCluster(h, use[i]), Chunk(body, i, ClusterSize(h)));
      SliceStays(s, mid, HCluster(h, use[i]), Chunk(body, i, ClusterSize(h)));
    }
    forall c | 2 <= c < n && c !in use[..k]
      ensures SameCluster(s, was, h, c)
    {
      ClusterWithin(h, c, n);
      assert SameCluster(mid, was, h, c);
    }
  }

  lemma DiskSame(s: Bytes, was: Bytes, h: Header, fat: seq<Entry>, t: Bytes)
    requires Disk(was, h, fat, t) && Same(s, was, CopyAt(h, 0), HRoot(h)) && |s| == |was|
    ensures Disk(s, h, fat, t)
  {
    hide TableOf, CopyAt, HRoot, HCluster;
    CopiesSame(s, was, h, t);
  }

  /** The loop over the clusters taken: contents, then link. */
  method Allocate(img: array<Octet>, h: Header, use: seq<nat>, body: Bytes, ghost fat: seq<Entry>, ghost t: Bytes)
      returns (ghost u: Bytes)
    requires Disk(img[..], h, fat, t) && Usable(use, |fat|)
    modifies img
    ensures Disk(img[..], h, LinkUp(fat, use, |use|), u)
    ensures Written(img[..], old(img[..]), h, |fat|, use, body, |use|)
    ensures Same(img[..], old(img[..]), 0, CopyAt(h, 0))
    ensures Same(img[..], old(img[..]), HRoot(h), HCluster(h, 2))
  {
    hide Put, Get, CopyAt, HRoot, HCluster, Disk, Written, Chunk, Slice, ClusterSize, Freed;
    u := t;
    DiskRoom(img[..], h, fat, t);
    NothingWritten(img[..], h, |fat|, use, body);
    for i := 0 to |use|
      invariant Disk(img[..], h, LinkUp(fat, use, i), u)
      invariant Written(img[..], old(img[..]), h, |fat|, use, body, i)
      invariant Same(img[..], old(img[..]), 0, CopyAt(h, 0))
      invariant Same(img[..], old(img[..]), HRoot(h), HCluster(h, 2))
    {
      ghost var mid := img[..];
      var c := use[i];
      ClusterWithin(h, c, |fat|);
      WriteCluster(img, h, c, body, i);
      OneMoreWritten(img[..], mid, old(img[..]), h, |fat|, use, body, i);
      DiskSame(img[..], mid, h, LinkUp(fat, use, i), u);
      mid := img[..];
      PutEntry(img, h, c, if i == |use| - 1 then END else use[i + 1], LinkUp(fat, use, i), u);
      u := Put(u, c, if i == |use| - 1 then END else use[i + 1]);
      WrittenStays(img[..], mid, old(img[..]), h, |fat|, use, body, i + 1);
    }
  }

  lemma NothingWritten(s: Bytes, h: Header, n: nat, use: seq<nat>, body: Bytes)
    requires n >= 2 && HCluster(h, n) <= |s| && forall i :: 0 <= i < |use| ==> use[i] >= 2
    ensures Written(s, s, h, n, use, body, 0)
  {
    hide HCluster, ClusterSize;
    forall c | 2 <= c < n
      ensures SameCluster(s, s, h, c)
    {
      ClusterWithin(h, c, n);
    }
  }

  // ---- the whole edit ----------------------------------------------------------------------------

  /** The directory entry written: name, archive attribute, no time or date. */
  function NewEntry(ent: Bytes, first: nat, size: nat): (e: Bytes)
    requires |ent| == 11 && first < 0x1_0000 && size < 0x1_0000_0000
    ensures |e| == DIR_ENTRY
  {
    ent + [0x20] + Zeros(14) + Le16Bytes(first) + Le32(size)
  }

  lemma NewEntryReads(ent: Bytes, first: nat, size: nat)
    requires |ent| == 11 && first < 0x1_0000 && size < 0x1_0000_0000
    ensures Decode(NewEntry(ent, first, size)) == Dirent(ent, 0x20, first, size)
    ensures NewEntry(ent, first, size)[0] == ent[0]
  {
    hide Le32, Le16Bytes, Le16, Le32Value;
    NumbersReadBack(first, size);
    var e := NewEntry(ent, first, size);
    assert e[..11] == ent && e[11] == 0x20;
    assert e[26] == Le16Bytes(first)[0] && e[27] == Le16Bytes(first)[1];
    assert e[28..32] == Le32(size);
  }

  /** Where the chain to free starts: nowhere, for a new name. */
  function OldFirst(s: Bytes, h: Header, slot: Slot): nat
    requires RootInImage(s, h) && slot.at < h.rootEntries
  {
    if slot.found then FirstAt(s, h, slot.at) else 0
  }

  predicate OtherEntries(s: Bytes, was: Bytes, h: Header, at: nat) {
    forall i :: 0 <= i < h.rootEntries && i != at ==> Same(s, was, EntryAt(h, i), EntryAt(h, i) + DIR_ENTRY)
  }

  /** What a successful edit leaves: the links freed and taken, in equal copies; the
      file in its clusters and every other cluster as it was; its directory entry and
      every other entry as it was; the boot sector as it was. */
  ghost predicate Edited(s: Bytes, was: Bytes, h: Header, fat: seq<Entry>, c: nat, at: nat, ent: Bytes, body: Bytes)
    requires InRange(fat) && LinkOk(c, |fat|) && |fat| <= 0xFFF && ClusterSize(h) > 0 && |ent| == 11
  {
    var freed := Freed(fat, c);
    var need := Need(|body|, ClusterSize(h));
    && need <= |Frees(freed, |fat|)|
    && var use := Taken(freed, need);
    && (exists u :: Disk(s, h, LinkUp(freed, use, need), u))
    && Written(s, was, h, |fat|, use, body, need)
    && at < h.rootEntries && |body| < 0x1_0000_0000
    && Slice(s, EntryAt(h, at), NewEntry(ent, use[0], |body|))
    && OtherEntries(s, was, h, at)
    && Same(s, was, 0, CopyAt(h, 0))
  }

  lemma BodyFits(h: Header, body: Bytes, n: nat)
    requires 0 < h.spc < 0x100 && Need(|body|, ClusterSize(h)) <= n <= 0xFFF
    ensures |body| < 0x1_0000_0000
  {
    hide Need;
    NeedCovers(|body|, ClusterSize(h));
    MulMono(Need(|body|, ClusterSize(h)), n, ClusterSize(h));
    assert ClusterSize(h) <= 0xFF * 512;
    MulMono(ClusterSize(h), 0xFF * 512, n);
  }

  lemma EntriesApart(s: Bytes, was: Bytes, h: Header, at: nat)
    requires at < h.rootEntries && |s| == |was| && HCluster(h, 2) <= |s|
    requires forall k :: 0 <= k < |s| && !(EntryAt(h, at) <= k < EntryAt(h, at) + DIR_ENTRY) ==> s[k] == was[k]
    ensures OtherEntries(s, was, h, at)
  {
    hide HRoot, HCluster;
    forall i | 0 <= i < h.rootEntries && i != at
      ensures Same(s, was, EntryAt(h, i), EntryAt(h, i) + DIR_ENTRY)
    {
      EntryInside(h, i);
    }
  }

  lemma EntriesThrough(s: Bytes, mid: Bytes, was: Bytes, h: Header, at: nat)
    requires OtherEntries(s, mid, h, at) && Same(mid, was, HRoot(h), HCluster(h, 2))
    ensures OtherEntries(s, was, h, at)
  {
    hide HRoot, HCluster;
    forall i | 0 <= i < h.rootEntries && i != at
      ensures Same(s, was, EntryAt(h, i), EntryAt(h, i) + DIR_ENTRY)
    {
      EntryInside(h, i);
      assert Same(s, mid, EntryAt(h, i), EntryAt(h, i) + DIR_ENTRY);
    }
  }

  lemma PartsThrough(s: Bytes, mid: Bytes, was: Bytes, h: Header, n: nat, use: seq<nat>, body: Bytes)
    requires Usable(use, n) && 2 <= n && HCluster(h, n) <= |s|
    requires Written(s, mid, h, n, use, body, |use|) && Same(mid, was, HCluster(h, 2), |s|)
    ensures Written(s, was, h, n, use, body, |use|)
  {
    hide HCluster, ClusterSize, Chunk, Slice;
    forall c | 2 <= c < n && c !in use[..|use|]
      ensures SameCluster(s, was, h, c)
    {
      ClusterWithin(h, c, n);
      assert SameCluster(s, mid, h, c);
    }
  }

  /** The directory entry, once the clusters are in place. */
  method WriteEntry(img: array<Octet>, h: Header, at: nat, ent: Bytes, first: nat, size: nat,
                    ghost links: seq<Entry>, ghost u: Bytes)
    requires Disk(img[..], h, links, u) && at < h.rootEntries
    requires |ent| == 11 && first < 0x1_0000 && size < 0x1_0000_0000
    modifies img
    ensures Slice(img[..], EntryAt(h, at), NewEntry(ent, first, size))
    ensures OtherEntries(img[..], old(img[..]), h, at)
    ensures Disk(img[..], h, links, u)
    ensures Same(img[..], old(img[..]), 0, CopyAt(h, 0)) && Same(img[..], old(img[..]), HCluster(h, 2), img.Length)
  {
    hide HRoot, HCluster, Disk, CopyAt, NewEntry, Slice, EntryAt;
    DiskRoom(img[..], h, links, u);
    EntryInside(h, at);
    ghost var was := img[..];
    FatWriter.CopyIn(img, EntryAt(h, at), NewEntry(ent, first, size));
    EntriesApart(img[..], was, h, at);
    DiskSame(img[..], was, h, links, u);
  }

  /** Everything after the old chain is freed. */
  method Fill(img: array<Octet>, h: Header, n: nat, at: nat, ent: Bytes, body: Bytes,
              ghost disk: Bytes, ghost fat: seq<Entry>, ghost c: nat, ghost u: Bytes)
      returns (r: Result<nat>)
    requires InRange(fat) && LinkOk(c, |fat|) && n == |fat| <= 0xFFF && |ent| == 11 && at < h.rootEntries
    requires Disk(img[..], h, Freed(fat, c), u) && 0 < h.spc < 0x100
    requires |disk| == img.Length
    requires Same(img[..], disk, 0, CopyAt(h, 0)) && Same(img[..], disk, HRoot(h), img.Length)
    modifies img
    ensures var free, need := Frees(Freed(fat, c), |fat|), Need(|body|, ClusterSize(h));
      && r == (if |free| < need then Err(NoRoom) else Ok(free[0]))
      && (r.Ok? ==> Edited(img[..], disk, h, fat, c, at, ent, body))
  {
    hide HRoot, HCluster, Disk, Freed, Frees, Need, Written, LinkUp, CopyAt, Slice, NewEntry, OtherEntries;
    ghost var freed := Freed(fat, c);
    DiskRoom(img[..], h, freed, u);
    ghost var s0 := img[..];
    var free := FreeList(img, h, n, freed, u);
    var need := Need(|body|, ClusterSize(h));
    if |free| < need { return Err(NoRoom); }
    var use := free[..need];
    assert use == Taken(freed, need);
    BodyFits(h, body, n);
    ghost var u2 := Allocate(img, h, use, body, freed, u);
    ghost var s1 := img[..];
    WriteEntry(img, h, at, ent, use[0], |body|, LinkUp(freed, use, need), u2);
    ghost var s2 := img[..];
    WrittenStays(s2, s1, s0, h, n, use, body, need);
    PartsThrough(s2, s0, disk, h, n, use, body);
    EntriesThrough(s2, s1, s0, h, at);
    EntriesThrough(s2, s0, disk, h, at);
    r := Ok(free[0]);
  }

  lemma NothingFreed(fat: seq<Entry>)
    requires InRange(fat) && |fat| > 0
    ensures LinkOk(0, |fat|) && Freed(fat, 0) == fat
  {
  }

  /** The edit, on the image read in; what is written back only if all went well. */
  method AddFile(disk: Bytes, h: Header, n: nat, ent: Bytes, body: Bytes, ghost fat: seq<Entry>, ghost t: Bytes)
      returns (r: Result<nat>, img: array<Octet>, slot: Option<Slot>)
    requires Disk(disk, h, fat, t) && n == |fat| && InRange(fat) && RootInImage(disk, h) && |ent| == 11
    requires forall i :: 0 <= i < h.rootEntries && NameAt(disk, h, i) == ent ==> LinkOk(FirstAt(disk, h, i), |fat|)
    ensures fresh(img) && img.Length == |disk| && |fat| <= 0xFFF && ClusterSize(h) > 0
    ensures IsSlot(disk, h, ent, slot)
    ensures slot.None? ==> r == Err(RootFull)
    ensures slot.Some? ==>
      var c := OldFirst(disk, h, slot.value);
      var free, need := Frees(Freed(fat, c), |fat|), Need(|body|, ClusterSize(h));
      && r == (if |free| < need then Err(NoRoom) else Ok(free[0]))
      && (r.Ok? ==> Edited(img[..], disk, h, fat, c, slot.value.at, ent, body))
  {
    hide HRoot, HCluster, Disk, Freed, Frees, Need, Written, LinkUp, Taken, CopyAt;
    DiskRoom(disk, h, fat, t);
    img := new Octet[|disk|](i requires 0 <= i < |disk| => disk[i]);
    assert img[..] == disk;
    slot := FindSlot(img, h, ent);
    if slot.None? { return Err(RootFull), img, slot; }
    ghost var u := t;
    if slot.value.found {
      EntryInside(h, slot.value.at);
      u := FreeChain(img, h, FirstAt(disk, h, slot.value.at), fat, t);
    } else {
      NothingFreed(fat);
    }
    r := Fill(img, h, n, slot.value.at, ent, body, disk, fat, OldFirst(disk, h, slot.value), u);
  }
}
