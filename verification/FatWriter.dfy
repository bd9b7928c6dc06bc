/** tools/fat12.py's _name_to_83(), _boot_sector() and image(), and the loops of
    tools/mkdisk.py's read_fat12(), which undo them. */
module FatWriter {
  import opened FatTable
  import opened FatVolume
  import opened FatImage

  // ---- names -------------------------------------------------------------------------

  const DOT: Octet := 0x2E
  const BLANK: Octet := 0x20

  function Upper(s: Bytes): (u: Bytes)
    ensures |u| == |s|
    ensures forall i :: 0 <= i < |s| ==> u[i] == if 0x61 <= s[i] <= 0x7A then s[i] - 0x20 else s[i]
  {
    seq(|s|, i requires 0 <= i < |s| => if 0x61 <= s[i] <= 0x7A then s[i] - 0x20 else s[i])
  }

  /** The position of the first dot, or the length. */
  function FirstDot(s: Bytes): (k: nat)
    ensures k <= |s| && DOT !in s[..k] && (k < |s| ==> s[k] == DOT)
  {
    if s == [] || s[0] == DOT then 0
    else
      var k := FirstDot(s[1..]);
      assert s[..k + 1] == [s[0]] + s[1..][..k];
      k + 1
  }

  function Blanks(n: nat): (z: Bytes)
    ensures |z| == n && forall i :: 0 <= i < n ==> z[i] == BLANK
  {
    seq(n, _ => BLANK)
  }

  function Base(name: Bytes): Bytes { Upper(name[..FirstDot(name)]) }
  function Ext(name: Bytes): Bytes { if FirstDot(name) < |name| then Upper(name[FirstDot(name) + 1..]) else [] }

  /** The eleven bytes a directory entry stores; None when the name does not fit. */
  function NameTo83(name: Bytes): (r: Option<Bytes>)
    ensures r.Some? ==> |r.value| == 11
  {
    var base, ext := Base(name), Ext(name);
    if |base| > 8 || |ext| > 3 || exists i :: 0 <= i < |name| && name[i] >= 0x80 then None
    else Some(base + Blanks(8 - |base|) + ext + Blanks(3 - |ext|))
  }

  lemma {:induction false} StripBlanks(s: Bytes, n: nat)
    ensures RStrip(s + Blanks(n)) == RStrip(s)
    decreases n
  {
    if n > 0 {
      var t := s + Blanks(n);
      assert t[..|t| - 1] == s + Blanks(n - 1);
      StripBlanks(s, n - 1);
    } else {
      assert s + Blanks(n) == s;
    }
  }

  lemma {:induction false} StripIsPrefix(s: Bytes)
    ensures |RStrip(s)| <= |s| && RStrip(s) == s[..|RStrip(s)|]
    ensures RStrip(s) == s <==> s == [] || !IsSpace(s[|s| - 1])
  {
    if s != [] && IsSpace(s[|s| - 1]) {
      StripIsPrefix(s[..|s| - 1]);
    }
  }

  /** A reader gets the upper-case name back, both parts, if and only if neither part
      ends in white space. */
  lemma NameReadsBackExactly(name: Bytes)
    requires NameTo83(name).Some?
    ensures var raw := NameTo83(name).value;
      (RStrip(raw[..8]) == Base(name) && RStrip(raw[8..]) == Ext(name))
        <==> (Base(name) == [] || !IsSpace(Base(name)[|Base(name)| - 1]))
             && (Ext(name) == [] || !IsSpace(Ext(name)[|Ext(name)| - 1]))
  {
    hide Upper, FirstDot, Base, Ext, IsSpace;
    var raw, base, ext := NameTo83(name).value, Base(name), Ext(name);
    assert raw[..8] == base + Blanks(8 - |base|);
    assert raw[8..] == ext + Blanks(3 - |ext|);
    StripBlanks(base, 8 - |base|);
    StripBlanks(ext, 3 - |ext|);
    StripIsPrefix(base);
    StripIsPrefix(ext);
  }

  // ---- the boot sector -----------------------------------------------------------------

  /** What the caller chooses beside the geometry. */
  datatype Boot = Boot(oem: Bytes, media: Octet, spt: nat, heads: nat, serial: nat, volume: Bytes, code: Bytes)

  predicate BootFieldsOk(b: Boot) {
    && |b.oem| == 8 && |b.volume| == 11 && |b.code| <= SECTOR - 0x3E - 2
    && b.spt < 0x1_0000 && b.heads < 0x1_0000 && b.serial < 0x1_0000_0000
  }

  function BootSector(g: Geometry, b: Boot): (s: Bytes)
    requires BootFieldsOk(b) && g.spc < 0x100
    requires g.total < 0x1_0000 && g.rootEntries < 0x1_0000 && g.spf < 0x1_0000
    ensures |s| == SECTOR
  {
    [0xEB, 0x3C, 0x90] + b.oem + Le16Bytes(SECTOR) + [g.spc] + Le16Bytes(RESERVED) + [FATS]
    + Le16Bytes(g.rootEntries) + Le16Bytes(g.total) + [b.media] + Le16Bytes(g.spf)
    + Le16Bytes(b.spt) + Le16Bytes(b.heads) + Zeros(8) + [0x00, 0x00, 0x29] + Le32(b.serial)
    + b.volume + [0x46, 0x41, 0x54, 0x31, 0x32, 0x20, 0x20, 0x20]
    + b.code + Zeros(SECTOR - 0x3E - 2 - |b.code|) + [0x55, 0xAA]
  }

  lemma HalvesOf(x: nat)
    requires x < 0x1_0000
    ensures Le16(Le16Bytes(x)[0], Le16Bytes(x)[1]) == x
  {
  }

  lemma BootSectorReads(g: Geometry, b: Boot)
    requires BootFieldsOk(b) && g.spc < 0x100
    requires g.total < 0x1_0000 && g.rootEntries < 0x1_0000 && g.spf < 0x1_0000
    ensures BootOk(BootSector(g, b), g)
  {
    hide Le16Bytes, Le32, Le16;
    var s := BootSector(g, b);
    HalvesOf(SECTOR);
    HalvesOf(RESERVED);
    HalvesOf(g.rootEntries);
    HalvesOf(g.total);
    HalvesOf(g.spf);
    assert s[13] == g.spc && s[16] == FATS;
    assert s[11] == Le16Bytes(SECTOR)[0] && s[12] == Le16Bytes(SECTOR)[1];
    assert s[19] == Le16Bytes(g.total)[0] && s[20] == Le16Bytes(g.total)[1];
    assert s[14] == Le16Bytes(RESERVED)[0] && s[15] == Le16Bytes(RESERVED)[1];
    assert s[17] == Le16Bytes(g.rootEntries)[0] && s[18] == Le16Bytes(g.rootEntries)[1];
    assert s[22] == Le16Bytes(g.spf)[0] && s[23] == Le16Bytes(g.spf)[1];
  }

  // ---- writing into the image ----------------------------------------------------------

  /** `img[at:at + len(data)] = data`. */
  method CopyIn(img: array<Octet>, at: nat, data: Bytes)
    requires at + |data| <= img.Length
    modifies img
    ensures Slice(img[..], at, data)
    ensures forall k :: 0 <= k < img.Length && !(at <= k < at + |data|) ==> img[k] == old(img[k])
  {
    for i := 0 to |data|
      invariant forall k :: 0 <= k < i ==> img[at + k] == data[k]
      invariant forall k :: 0 <= k < img.Length && !(at <= k < at + i) ==> img[k] == old(img[k])
    {
      img[at + i] := data[i];
    }
    assert img[..][at..at + |data|] == data;
  }

  lemma FatBefore(g: Geometry, m: nat, n: nat)
    requires m < n
    ensures FatAt(g, m) + g.spf * SECTOR <= FatAt(g, n)
  {
    MulMono(m + 1, n, g.spf);
  }

  lemma FatsEnd(g: Geometry)
    requires GeometryOk(g)
    ensures FatAt(g, FATS) == RootStart(g) * SECTOR <= DataStart(g) * SECTOR <= g.total * SECTOR
    ensures FatAt(g, 0) == SECTOR
  {
  }

  method WriteFats(img: array<Octet>, g: Geometry, table: Bytes)
    requires GeometryOk(g) && img.Length == g.total * SECTOR && |table| == g.spf * SECTOR
    modifies img
    ensures FatsOk(img[..], g, table, FATS)
    ensures Same(img[..], old(img[..]), 0, SECTOR)
    ensures Same(img[..], old(img[..]), RootStart(g) * SECTOR, img.Length)
  {
    hide GeometryOk, FatAt, Slice;
    FatsEnd(g);
    for n := 0 to FATS
      invariant FatsOk(img[..], g, table, n)
      invariant Same(img[..], old(img[..]), 0, SECTOR)
      invariant Same(img[..], old(img[..]), RootStart(g) * SECTOR, img.Length)
    {
      ghost var was := img[..];
      FatBefore(g, n, FATS);
      if n > 0 { FatBefore(g, 0, n); }
      CopyIn(img, FatAt(g, n), table);
      forall m | 0 <= m < n
        ensures Slice(img[..], FatAt(g, m), table)
      {
        assert Slice(was, FatAt(g, m), table);
        FatBefore(g, m, n);
        SliceStays(img[..], was, FatAt(g, m), table);
      }
    }
  }

  lemma RootRoom(g: Geometry, n: nat)
    requires GeometryOk(g) && n <= g.rootEntries
    ensures RootStart(g) * SECTOR + n * DIR_ENTRY <= DataStart(g) * SECTOR <= g.total * SECTOR
  {
  }

  method WriteRoot(img: array<Octet>, g: Geometry, dirents: seq<Dirent>)
    requires GeometryOk(g) && img.Length == g.total * SECTOR && |dirents| <= g.rootEntries
    requires forall i :: 0 <= i < |dirents| ==> DirentOk(dirents[i])
    modifies img
    ensures RootOk(img[..], g, dirents, |dirents|)
    ensures Same(img[..], old(img[..]), 0, RootStart(g) * SECTOR)
    ensures Same(img[..], old(img[..]), RootStart(g) * SECTOR + |dirents| * DIR_ENTRY, img.Length)
  {
    hide GeometryOk, Slice, Encode, RootStart;
    RootRoom(g, |dirents|);
    for i := 0 to |dirents|
      invariant RootOk(img[..], g, dirents, i)
      invariant Same(img[..], old(img[..]), 0, RootStart(g) * SECTOR)
      invariant Same(img[..], old(img[..]), RootStart(g) * SECTOR + |dirents| * DIR_ENTRY, img.Length)
    {
      ghost var was := img[..];
      var at := RootStart(g) * SECTOR;
      CopyIn(img, at + i * DIR_ENTRY, Encode(dirents[i]));
      forall j | 0 <= j < i
        ensures Slice(img[..], at + j * DIR_ENTRY, Encode(dirents[j]))
      {
        assert Slice(was, at + j * DIR_ENTRY, Encode(dirents[j]));
        SliceStays(img[..], was, at + j * DIR_ENTRY, Encode(dirents[j]));
      }
    }
  }

  lemma ClusterBefore(g: Geometry, c: nat, d: nat)
    requires GeometryOk(g) && 2 <= c < d < ClusterCount(g) + 2
    ensures ClusterAt(g, c) + ClusterBytes(g) <= ClusterAt(g, d)
  {
    RegionsAreApart(g, c, d);
  }

  method WriteClusters(img: array<Octet>, g: Geometry, clusters: map<nat, Bytes>, end: nat)
    requires GeometryOk(g) && img.Length == g.total * SECTOR && 2 <= end <= ClusterCount(g) + 2
    requires forall c :: c in clusters ==> 2 <= c < end && |clusters[c]| == ClusterBytes(g)
    modifies img
    ensures DataOk(img[..], g, clusters, end)
    ensures Same(img[..], old(img[..]), 0, DataStart(g) * SECTOR)
  {
    hide GeometryOk, Slice, DataStart, ClusterCount, ClusterAt, ClusterBytes;
    FatsEnd(g);
    for c := 2 to end
      invariant DataOk(img[..], g, clusters, c)
      invariant Same(img[..], old(img[..]), 0, DataStart(g) * SECTOR)
    {
      if c in clusters {
        ghost var was := img[..];
        ClusterInside(g, c);
        CopyIn(img, ClusterAt(g, c), clusters[c]);
        forall d | d in clusters && 2 <= d < c
          ensures Slice(img[..], ClusterAt(g, d), clusters[d])
        {
          assert Slice(was, ClusterAt(g, d), clusters[d]);
          ClusterBefore(g, d, c);
          SliceStays(img[..], was, ClusterAt(g, d), clusters[d]);
        }
      }
    }
  }

  // ---- the whole image -------------------------------------------------------------------

  lemma DirentsFit(v: Vol, files: seq<File>)
    requires Represents(v, files)
    ensures |v.dirents| <= v.g.rootEntries
    ensures forall i :: 0 <= i < |v.dirents| ==> DirentOk(v.dirents[i])
  {
    hide Laid, GeometryOk, FirstOf, Need, ClusterCount, FileOk;
    FilesOk(v, files);
    CbPositive(v.g);
    forall i | 0 <= i < |v.dirents|
      ensures DirentOk(v.dirents[i])
    {
      var cb := ClusterBytes(v.g);
      FirstOfGrows(files, cb, i, |files|);
      NeedCovers(|files[i].data|, cb);
      ClusterSizes(v.g);
      MulMono(Need(|files[i].data|, cb), MAX_CLUSTERS, cb);
    }
  }

  lemma ClusterSizes(g: Geometry)
    requires GeometryOk(g)
    ensures ClusterBytes(g) <= 0x8000 && g.spc < 0x100
  {
  }

  /** Every cluster below the next free one belongs to some file. */
  lemma {:induction false} OwnerOf(files: seq<File>, cb: nat, c: nat, j: nat) returns (k: nat)
    requires cb > 0 && j <= |files| && 2 <= c < FirstOf(files, cb, j)
    ensures k < j && FirstOf(files, cb, k) <= c < FirstOf(files, cb, k) + Need(|files[k].data|, cb)
  {
    hide Need;
    if c < FirstOf(files, cb, j - 1) {
      k := OwnerOf(files, cb, c, j - 1);
    } else {
      k := j - 1;
    }
  }

  lemma ClustersWhole(v: Vol, files: seq<File>)
    requires Represents(v, files)
    ensures forall c :: c in v.clusters ==> 2 <= c < v.nextFree && |v.clusters[c]| == ClusterBytes(v.g)
  {
    hide GeometryOk, Need, Chunk, FirstOf, ClusterCount;
    CbPositive(v.g);
    forall c | c in v.clusters
      ensures |v.clusters[c]| == ClusterBytes(v.g)
    {
      var cb := ClusterBytes(v.g);
      var j := OwnerOf(files, cb, c, |files|);
      assert Laid(v.fat, v.clusters, cb, FirstOf(files, cb, j), files[j].data);
      assert Link(v.fat, v.clusters, cb, FirstOf(files, cb, j), files[j].data, c - FirstOf(files, cb, j));
    }
  }

  /** The two numbers that must fit their fields, and a table that must hold the last
      pair whole: image() raises an exception exactly when one does not. */
  predicate Writable(v: Vol) {
    v.g.total < 0x1_0000 && v.g.rootEntries < 0x1_0000 && Fits(|v.fat|, v.g.spf * SECTOR)
  }

  lemma SmallFields(g: Geometry)
    requires GeometryOk(g) && g.total < 0x1_0000
    ensures g.spf < 0x1_0000 && SECTOR <= g.total * SECTOR
  {
  }

  lemma FatsSurvive(img: Bytes, was: Bytes, g: Geometry, table: Bytes)
    requires GeometryOk(g) && |table| == g.spf * SECTOR && |was| == g.total * SECTOR
    requires FatsOk(was, g, table, FATS) && Same(img, was, 0, RootStart(g) * SECTOR)
    ensures FatsOk(img, g, table, FATS)
  {
    hide GeometryOk, FatAt, Slice, RootStart;
    FatsEnd(g);
    forall m | 0 <= m < FATS
      ensures Slice(img, FatAt(g, m), table)
    {
      FatBefore(g, m, FATS);
      assert Slice(was, FatAt(g, m), table);
      SliceStays(img, was, FatAt(g, m), table);
    }
  }

  lemma RootSurvives(img: Bytes, was: Bytes, g: Geometry, dirents: seq<Dirent>)
    requires GeometryOk(g) && |dirents| <= g.rootEntries
    requires RootOk(was, g, dirents, |dirents|) && Same(img, was, 0, DataStart(g) * SECTOR)
    ensures RootOk(img, g, dirents, |dirents|)
  {
    hide GeometryOk, Slice, RootStart, Encode, DataStart;
    RootRoom(g, |dirents|);
    var at := RootStart(g) * SECTOR;
    forall i | 0 <= i < |dirents|
      ensures Slice(img, at + i * DIR_ENTRY, Encode(dirents[i]))
    {
      assert Slice(was, at + i * DIR_ENTRY, Encode(dirents[i]));
      SliceStays(img, was, at + i * DIR_ENTRY, Encode(dirents[i]));
    }
  }

  lemma BootSurvives(img: Bytes, was: Bytes, g: Geometry, boot: Bytes)
    requires |boot| == SECTOR && BootOk(boot, g) && Slice(was, 0, boot) && Same(img, was, 0, SECTOR)
    ensures BootOk(img, g)
  {
    hide Le16;
    SliceStays(img, was, 0, boot);
    assert forall k :: 0 <= k < SECTOR ==> img[k] == img[0..0 + |boot|][k];
  }

  lemma SamePart(img: Bytes, was: Bytes, old0: Bytes, lo: nat, hi: nat, top: nat)
    requires Same(img, was, lo, top) && Same(was, old0, lo, hi) && hi <= top
    ensures Same(img, old0, lo, hi)
  {
  }

  /** Boot sector, FATs, directory and clusters, in that order. */
  method FillImage(img: array<Octet>, v: Vol, b: Boot, table: Bytes, ghost files: seq<File>)
    requires Represents(v, files) && BootFieldsOk(b) && v.g.spc < 0x100
    requires v.g.total < 0x1_0000 && v.g.rootEntries < 0x1_0000 && v.g.spf < 0x1_0000
    requires img.Length == v.g.total * SECTOR >= SECTOR && forall k :: 0 <= k < img.Length ==> img[k] == 0
    requires |table| == v.g.spf * SECTOR && TableOf(table, v.fat)
    modifies img
    ensures ImageOf(img[..], v)
  {
    hide GeometryOk, Represents, Slice, Encode, BootSector, FatsOk, RootOk, DataOk, BootOk, TableOf, BootFieldsOk;
    hide ClusterBytes, ClusterCount, DirentOk, FirstOf;
    var g := v.g;
    RepresentsSizes(v, files);
    DirentsFit(v, files);
    ClustersWhole(v, files);
    NextFreeInside(v, files);
    FatsEnd(g);
    RootRoom(g, |v.dirents|);
    var boot := BootSector(g, b);
    BootSectorReads(g, b);
    CopyIn(img, 0, boot);
    ghost var s0 := img[..];
    WriteFats(img, g, table);
    ghost var s1 := img[..];
    WriteRoot(img, g, v.dirents);
    ghost var s2 := img[..];
    WriteClusters(img, g, v.clusters, v.nextFree);
    SamePart(img[..], s2, s1, 0, RootStart(g) * SECTOR, DataStart(g) * SECTOR);
    SamePart(img[..], s1, s0, 0, SECTOR, RootStart(g) * SECTOR);
    BootSurvives(img[..], s0, g, boot);
    FatsSurvive(img[..], s1, g, table);
    RootSurvives(img[..], s2, g, v.dirents);
    EndStays(img[..], s2, s1, s0, v);
  }

  /** The directory behind the last entry is still zero. */
  lemma EndStays(img: Bytes, s2: Bytes, s1: Bytes, s0: Bytes, v: Vol)
    requires GeometryOk(v.g) && |v.dirents| <= v.g.rootEntries && |img| == v.g.total * SECTOR
    requires Same(img, s2, 0, DataStart(v.g) * SECTOR)
    requires Same(s2, s1, RootStart(v.g) * SECTOR + |v.dirents| * DIR_ENTRY, |img|)
    requires Same(s1, s0, RootStart(v.g) * SECTOR, |img|)
    requires |s0| == |img| && forall k :: SECTOR <= k < |img| ==> s0[k] == 0
    ensures EndOk(img, v.g, |v.dirents|)
  {
    hide GeometryOk, RootStart, DataStart;
    FatsEnd(v.g);
    FatBefore(v.g, 0, FATS);
    forall i | |v.dirents| <= i < v.g.rootEntries
      ensures RootStart(v.g) * SECTOR + i * DIR_ENTRY < |img| && img[RootStart(v.g) * SECTOR + i * DIR_ENTRY] == 0
    {
      RootRoom(v.g, i + 1);
    }
  }

  lemma NextFreeInside(v: Vol, files: seq<File>)
    requires Represents(v, files)
    ensures GeometryOk(v.g) && 2 <= v.nextFree <= ClusterCount(v.g) + 2
  {
    hide GeometryOk, Laid;
    CbPositive(v.g);
  }

  /** WRITE AND READ BACK. The image of a volume is the one its files call for, and a
      reader lists just those files. */
  method Image(v: Vol, b: Boot, ghost files: seq<File>) returns (ok: bool, img: array<Octet>)
    requires Represents(v, files) && BootFieldsOk(b)
    ensures ok <==> Writable(v)
    ensures fresh(img)
    ensures ok ==> ImageOf(img[..], v)
    ensures ClusterBytes(v.g) > 0 && forall k :: 0 <= k < |files| ==> |files[k].raw| == 11
    ensures ok ==> ReadFat12(img[..]) == Some(Listing(files, ClusterBytes(v.g), 0))
  {
    hide GeometryOk, Represents, ImageOf, ReadFat12, Listing, Packed, Fits, BootFieldsOk, ClusterBytes, ClusterCount;
    RepresentsSizes(v, files);
    FilesOk(v, files);
    CbPositive(v.g);
    img := new Octet[v.g.total * SECTOR](_ => 0);
    if v.g.total >= 0x1_0000 || v.g.rootEntries >= 0x1_0000 { return false, img; }
    ClusterSizes(v.g);
    SmallFields(v.g);
    var table: array<Octet>;
    ok, table := PackFat(v.fat, v.g.spf * SECTOR);
    if !ok { return; }
    PackedTable(table[..], v.fat);
    FillImage(img, v, b, table[..], files);
    ReadsBack(img[..], v, files);
  }

  lemma PackedTable(t: Bytes, fat: seq<Entry>)
    requires Packed(t, fat, (|fat| + 1) / 2 * 2)
    ensures TableOf(t, fat)
  {
    hide Get, Holds;
  }

  // ---- the reader's loops -----------------------------------------------------------------

  method WalkChain(img: array<Octet>, h: Header, first: nat, size: nat) returns (r: Option<Bytes>)
    ensures r == ReadChain(img[..], h, first, [], size)
  {
    hide Get, HCluster, Holds;
    var s := img[..];
    var c: nat, blob: Bytes := first, [];
    var cb := h.spc * SECTOR;
    while 2 <= c < READER_END && |blob| < size + cb
      invariant ReadChain(s, h, c, blob, size) == ReadChain(s, h, first, [], size)
      decreases size + cb - |blob|
    {
      if h.spc == 0 || HCluster(h, c) + cb > |s| || (h.reserved + h.spf) * SECTOR > |s| { return None; }
      var fat := s[h.reserved * SECTOR..(h.reserved + h.spf) * SECTOR];
      if !Holds(fat, c) { return None; }
      blob := blob + s[HCluster(h, c)..HCluster(h, c) + cb];
      c := Get(fat, c);
    }
    return Some(blob);
  }

  /** What the rest of the directory adds to the files found so far. */
  function Then(out: seq<Named>, rest: Option<seq<Named>>): Option<seq<Named>> {
    match rest case None => None case Some(more) => Some(out + more)
  }

  lemma ThenAppends(out: seq<Named>, x: Named, rest: Option<seq<Named>>)
    ensures Then(out + [x], rest) == Then(out, Then([x], rest))
  {
    if rest.Some? {
      assert out + [x] + rest.value == out + ([x] + rest.value);
    }
  }

  function Shown(d: Dirent, blob: Bytes): Named
    requires |d.raw| == 11
  {
    Named(RStrip(d.raw[..8]), RStrip(d.raw[8..]), if |blob| < d.size then blob else blob[..d.size])
  }

  lemma EntryThen(img: Bytes, h: Header, i: nat)
    requires i < h.rootEntries && HRoot(h) + i * DIR_ENTRY + DIR_ENTRY <= |img| && img[HRoot(h) + i * DIR_ENTRY] != 0
    ensures var e := HRoot(h) + i * DIR_ENTRY;
      var d, rest := Decode(img[e..e + DIR_ENTRY]), ReadEntries(img, h, i + 1);
      ReadEntries(img, h, i)
        == if img[e] == 0xE5 || Hidden(d) then rest
           else match ReadChain(img, h, d.first, [], d.size)
                case None => None
                case Some(blob) => Then([Shown(d, blob)], rest)
  {
    hide ReadChain, Decode, HRoot, RStrip, Hidden;
  }

  method ReadImage(img: array<Octet>) returns (r: Option<seq<Named>>)
    ensures r == ReadFat12(img[..])
  {
    hide ReadChain, Decode, HRoot, RStrip, Hidden, Then, Shown, ReadHeader;
    var s := img[..];
    var header := ReadHeader(s);
    if header.None? { return None; }
    var h := header.value;
    var out: seq<Named> := [];
    var i := 0;
    NothingYet(ReadEntries(s, h, 0));
    while i < h.rootEntries
      invariant i <= h.rootEntries
      invariant ReadEntries(s, h, 0) == Then(out, ReadEntries(s, h, i))
    {
      var e := HRoot(h) + i * DIR_ENTRY;
      if e + DIR_ENTRY > |s| {
        ThenOf(out, None);
        return None;
      }
      if s[e] == 0 { break; }
      EntryThen(s, h, i);
      var d := Decode(s[e..e + DIR_ENTRY]);
      if s[e] != 0xE5 && !Hidden(d) {
        var blob := WalkChain(img, h, d.first, d.size);
        if blob.None? {
          ThenOf(out, None);
          return None;
        }
        ThenAppends(out, Shown(d, blob.value), ReadEntries(s, h, i + 1));
        out := out + [Shown(d, blob.value)];
      }
      i := i + 1;
    }
    ThenOf(out, Some([]));
    return Some(out);
  }

  lemma NothingYet(rest: Option<seq<Named>>)
    ensures Then([], rest) == rest
  {
    if rest.Some? { assert [] + rest.value == rest.value; }
  }

  lemma ThenOf(out: seq<Named>, rest: Option<seq<Named>>)
    requires rest == None || rest == Some([])
    ensures Then(out, rest) == if rest.None? then None else Some(out)
  {
    assert out + [] == out;
  }

  // ---- ordinary volumes -------------------------------------------------------------------

  /** A file a reader shows: not deleted, not a label, not the end of the directory. */
  predicate Plain(f: File) { |f.raw| == 11 && f.raw[0] != 0 && f.raw[0] != 0xE5 && f.attrs / 8 % 2 == 0 }

  /** SAME NAMES, SAME CONTENTS, SAME ORDER: plain files whose clusters are numbered
      below FF0 are all listed, whole. */
  lemma {:induction false} PlainFilesAllListed(files: seq<File>, cb: nat, j: nat)
    requires cb > 0 && j <= |files|
    requires forall k :: 0 <= k < |files| ==> |files[k].raw| == 11 && Plain(files[k])
    requires FirstOf(files, cb, |files|) <= READER_END
    ensures var l := Listing(files, cb, j);
      && |l| == |files| - j
      && forall k :: j <= k < |files| ==>
           l[k - j] == Named(RStrip(files[k].raw[..8]), RStrip(files[k].raw[8..]), files[k].data)
    decreases |files| - j
  {
    hide Found, RStrip, FirstOf, Need;
    if j < |files| {
      PlainFilesAllListed(files, cb, j + 1);
      FirstOfGrows(files, cb, j, |files|);
      WholeExactly(files[j], FirstOf(files, cb, j), cb);
    }
  }
}
