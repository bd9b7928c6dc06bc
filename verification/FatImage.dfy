/** tools/fat12.py's image() and tools/mkdisk.py's read_fat12(): a volume written
    out, and the files a reader finds in it. */
module FatImage {
  import opened FatTable
  import opened FatVolume

  /** Numbers from here up end a chain, for every reader in the repository. */
  const READER_END: nat := 0xFF0

  function Le32(x: nat): (b: Bytes)
    requires x < 0x1_0000_0000
    ensures |b| == 4
  {
    [x % 0x100, x / 0x100 % 0x100, x / 0x1_0000 % 0x100, x / 0x100_0000]
  }

  function Le32Value(b: Bytes): nat
    requires |b| == 4
  {
    Le16(b[0], b[1]) + 0x1_0000 * Le16(b[2], b[3])
  }

  function Le16Bytes(x: nat): (b: Bytes)
    requires x < 0x1_0000
    ensures |b| == 2
  {
    [x % 0x100, x / 0x100]
  }

  // ---- directory entries ------------------------------------------------------------

  predicate DirentOk(d: Dirent) { |d.raw| == 11 && d.first < 0x1_0000 && d.size < 0x1_0000_0000 }

  /** Name, attributes, a fixed time and date, first cluster, size. */
  function Encode(d: Dirent): (e: Bytes)
    requires DirentOk(d)
    ensures |e| == DIR_ENTRY
  {
    d.raw + [d.attrs] + Zeros(10) + [0x00, 0x60, 0x21, 0x5A] + Le16Bytes(d.first) + Le32(d.size)
  }

  function Decode(e: Bytes): (d: Dirent)
    requires |e| == DIR_ENTRY
    ensures |d.raw| == 11
  {
    Dirent(e[..11], e[11], Le16(e[26], e[27]), Le32Value(e[28..32]))
  }

  lemma NumbersReadBack(x: nat, y: nat)
    requires x < 0x1_0000 && y < 0x1_0000_0000
    ensures Le16(Le16Bytes(x)[0], Le16Bytes(x)[1]) == x && Le32Value(Le32(y)) == y
  {
  }

  /** Numbers on disk have their low byte first. */
  lemma LowByteFirst(x: nat, y: nat)
    requires x < 0x1_0000 && y < 0x1_0000_0000
    ensures var b: seq<nat> := Le16Bytes(x); x == b[0] + 0x100 * b[1]
    ensures var b: seq<nat> := Le32(y); y == b[0] + 0x100 * b[1] + 0x1_0000 * b[2] + 0x100_0000 * b[3]
  {
    NumbersReadBack(x, y);
  }

  lemma DirentReadsBack(d: Dirent)
    requires DirentOk(d)
    ensures Decode(Encode(d)) == d
  {
    hide Le32, Le16Bytes, Le16, Le32Value;
    NumbersReadBack(d.first, d.size);
    var e := Encode(d);
    assert e[..11] == d.raw && e[11] == d.attrs;
    assert e[26] == Le16Bytes(d.first)[0] && e[27] == Le16Bytes(d.first)[1];
    assert e[28..32] == Le32(d.size);
  }

  // ---- what an image holds -------------------------------------------------------------

  predicate Slice(img: Bytes, at: nat, data: Bytes) { at + |data| <= |img| && img[at..at + |data|] == data }

  predicate Same(img: Bytes, was: Bytes, lo: nat, hi: nat) {
    |img| == |was| && hi <= |img| && forall k :: lo <= k < hi ==> img[k] == was[k]
  }

  lemma SliceStays(img: Bytes, was: Bytes, at: nat, data: Bytes)
    requires Slice(was, at, data) && Same(img, was, at, at + |data|)
    ensures Slice(img, at, data)
  {
    assert img[at..at + |data|] == was[at..at + |data|];
  }

  /** The BPB fields a reader uses. */
  predicate BootOk(img: Bytes, g: Geometry) {
    && |img| >= SECTOR
    && Le16(img[11], img[12]) == SECTOR
    && img[13] == g.spc
    && Le16(img[14], img[15]) == RESERVED
    && img[16] == FATS
    && Le16(img[17], img[18]) == g.rootEntries
    && Le16(img[19], img[20]) == g.total
    && Le16(img[22], img[23]) == g.spf
  }

  function FatAt(g: Geometry, n: nat): nat { (RESERVED + n * g.spf) * SECTOR }

  predicate FatsOk(img: Bytes, g: Geometry, table: Bytes, n: nat) {
    forall m :: 0 <= m < n ==> Slice(img, FatAt(g, m), table)
  }

  predicate RootOk(img: Bytes, g: Geometry, dirents: seq<Dirent>, n: nat)
    requires n <= |dirents|
  {
    forall i :: 0 <= i < n ==>
      DirentOk(dirents[i]) && Slice(img, RootStart(g) * SECTOR + i * DIR_ENTRY, Encode(dirents[i]))
  }

  predicate DataOk(img: Bytes, g: Geometry, clusters: map<nat, Bytes>, n: nat) {
    forall c :: c in clusters && 2 <= c < n ==> Slice(img, ClusterAt(g, c), clusters[c])
  }

  /** Every entry from `n` on is free, and marks the end of the directory. */
  predicate EndOk(img: Bytes, g: Geometry, n: nat) {
    forall i :: n <= i < g.rootEntries ==>
      RootStart(g) * SECTOR + i * DIR_ENTRY < |img| && img[RootStart(g) * SECTOR + i * DIR_ENTRY] == 0
  }

  /** The image of a volume: boot sector, both FAT copies, directory with its end
      marked, and every cluster. */
  ghost predicate ImageOf(img: Bytes, v: Vol) {
    && GeometryOk(v.g) && |img| == v.g.total * SECTOR
    && BootOk(img, v.g)
    && (exists table :: |table| == v.g.spf * SECTOR && TableOf(table, v.fat) && FatsOk(img, v.g, table, FATS))
    && RootOk(img, v.g, v.dirents, |v.dirents|)
    && EndOk(img, v.g, |v.dirents|)
    && DataOk(img, v.g, v.clusters, v.nextFree)
  }

  predicate TableOf(table: Bytes, fat: seq<Entry>) {
    forall c :: 0 <= c < |fat| ==> Holds(table, c) && Get(table, c) == fat[c]
  }

  // ---- the reader ------------------------------------------------------------------------

  /** A file as a reader hands it out: display name and contents. */
  datatype Named = Named(base: Bytes, ext: Bytes, data: Bytes)

  /** White space, as the reader's language strips it. */
  predicate IsSpace(b: Octet) { 9 <= b <= 13 || 28 <= b <= 32 || b == 0x85 || b == 0xA0 }

  function RStrip(s: Bytes): Bytes {
    if s == [] || !IsSpace(s[|s| - 1]) then s else RStrip(s[..|s| - 1])
  }

  datatype Header = Header(reserved: nat, fats: nat, rootEntries: nat, spf: nat, spc: nat)

  function ReadHeader(img: Bytes): Option<Header> {
    if |img| < 24 then None
    else Some(Header(Le16(img[14], img[15]), img[16], Le16(img[17], img[18]), Le16(img[22], img[23]), img[13]))
  }

  function HRoot(h: Header): nat { (h.reserved + h.fats * h.spf) * SECTOR }
  function HData(h: Header): nat { h.reserved + h.fats * h.spf + (h.rootEntries * DIR_ENTRY + SECTOR - 1) / SECTOR }
  function HCluster(h: Header, c: nat): nat
    requires c >= 2
  {
    (HData(h) + (c - 2) * h.spc) * SECTOR
  }

  /** The chain walk; None where an index would fall outside. */
  function ReadChain(img: Bytes, h: Header, c: nat, blob: Bytes, size: nat): Option<Bytes>
    decreases size + h.spc * SECTOR - |blob|
  {
    var cb := h.spc * SECTOR;
    if !(2 <= c < READER_END && |blob| < size + cb) then Some(blob)
    else if h.spc == 0 || HCluster(h, c) + cb > |img| then None
    else if (h.reserved + h.spf) * SECTOR > |img| then None
    else
      var fat := img[h.reserved * SECTOR..(h.reserved + h.spf) * SECTOR];
      if !Holds(fat, c) then None
      else ReadChain(img, h, Get(fat, c), blob + img[HCluster(h, c)..HCluster(h, c) + cb], size)
  }

  predicate Hidden(d: Dirent) { d.attrs / 8 % 2 == 1 }

  function ReadEntries(img: Bytes, h: Header, i: nat): Option<seq<Named>>
    decreases h.rootEntries - i
  {
    var e := HRoot(h) + i * DIR_ENTRY;
    if i >= h.rootEntries then Some([])
    else if e + DIR_ENTRY > |img| then None
    else if img[e] == 0 then Some([])
    else
      var d := Decode(img[e..e + DIR_ENTRY]);
      if img[e] == 0xE5 || Hidden(d) then ReadEntries(img, h, i + 1)
      else
        match ReadChain(img, h, d.first, [], d.size)
        case None => None
        case Some(blob) =>
          match ReadEntries(img, h, i + 1)
          case None => None
          case Some(rest) =>
            Some([Named(RStrip(d.raw[..8]), RStrip(d.raw[8..]),
                        if |blob| < d.size then blob else blob[..d.size])] + rest)
  }

  function ReadFat12(img: Bytes): Option<seq<Named>> {
    match ReadHeader(img)
    case None => None
    case Some(h) => ReadEntries(img, h, 0)
  }

  // ---- what the reader must find -------------------------------------------------------

  /** How many of a file's clusters a reader gets to: those numbered below FF0. */
  function Reached(first: nat, need: nat): nat {
    if first + need <= READER_END then need else if first >= READER_END then 0 else READER_END - first
  }

  function Found(f: File, first: nat, cb: nat): Bytes
    requires cb > 0
  {
    var n := Reached(first, Need(|f.data|, cb)) * cb;
    if n < |f.data| then f.data[..n] else f.data
  }

  /** The directory as a reader lists it: up to a name that starts with 00, leaving
      out names that start with E5 and volume labels. */
  function Listing(files: seq<File>, cb: nat, j: nat): seq<Named>
    requires cb > 0 && j <= |files| && forall k :: 0 <= k < |files| ==> |files[k].raw| == 11
    decreases |files| - j
  {
    if j == |files| || files[j].raw[0] == 0 then []
    else
      var rest := Listing(files, cb, j + 1);
      var f := files[j];
      if f.raw[0] == 0xE5 || f.attrs / 8 % 2 == 1 then rest
      else [Named(RStrip(f.raw[..8]), RStrip(f.raw[8..]), Found(f, FirstOf(files, cb, j), cb))] + rest
  }

  /** The first `k` clusters of a file, end to end. */
  function Chunks(data: Bytes, cb: nat, k: nat): (b: Bytes)
    ensures |b| == k * cb
  {
    if k == 0 then [] else Chunks(data, cb, k - 1) + Chunk(data, k - 1, cb)
  }

  lemma {:induction false} ChunksStartWithData(data: Bytes, cb: nat, k: nat)
    ensures var n := if k * cb < |data| then k * cb else |data|; Chunks(data, cb, k)[..n] == data[..n]
  {
    if k > 0 {
      ChunksStartWithData(data, cb, k - 1);
      NextChunk(data, cb, k);
    }
  }

  lemma NextChunk(data: Bytes, cb: nat, k: nat)
    requires k > 0
    requires var m := if (k - 1) * cb < |data| then (k - 1) * cb else |data|; Chunks(data, cb, k - 1)[..m] == data[..m]
    ensures var n := if k * cb < |data| then k * cb else |data|; Chunks(data, cb, k)[..n] == data[..n]
  {
    hide ChunkFrom;
    MulNext(k - 1, cb);
    var lo := (k - 1) * cb;
    assert Chunk(data, k - 1, cb) == ChunkFrom(data, lo, cb);
    PrefixGrows(Chunks(data, cb, k - 1), ChunkFrom(data, lo, cb), data, lo, cb);
  }

  lemma MulNext(k: nat, n: nat)
    ensures (k + 1) * n == k * n + n
  {
  }

  lemma PrefixGrows(a: Bytes, c: Bytes, data: Bytes, lo: nat, cb: nat)
    requires |a| == lo && |c| == cb
    requires var m := if lo < |data| then lo else |data|; a[..m] == data[..m]
    requires forall x :: 0 <= x < cb && lo + x < |data| ==> c[x] == data[lo + x]
    ensures var n := if lo + cb < |data| then lo + cb else |data|; (a + c)[..n] == data[..n]
  {
    var n := if lo + cb < |data| then lo + cb else |data|;
    var m := if lo < |data| then lo else |data|;
    forall x | 0 <= x < n
      ensures (a + c)[x] == data[x]
    {
      if x < lo {
        assert a[..m][x] == data[..m][x];
      } else {
        assert c[x - lo] == data[lo + (x - lo)];
      }
    }
  }

  // ---- reading an image back --------------------------------------------------------

  function HeaderOf(g: Geometry): Header { Header(RESERVED, FATS, g.rootEntries, g.spf, g.spc) }

  lemma HeaderReads(img: Bytes, g: Geometry)
    requires GeometryOk(g) && BootOk(img, g)
    ensures ReadHeader(img) == Some(HeaderOf(g))
    ensures HRoot(HeaderOf(g)) == RootStart(g) * SECTOR && HData(HeaderOf(g)) == DataStart(g)
  {
    hide HData, DataStart, Le16, GeometryOk;
    DataStartAgrees(g);
  }

  lemma NeedCovers(n: nat, cb: nat)
    requires cb > 0
    ensures var k := Need(n, cb); n <= k * cb && (k - 1) * cb <= n && (n > 0 ==> (k - 1) * cb < n)
  {
    var q := (n + cb - 1) / cb;
    assert n + cb - 1 == cb * q + (n + cb - 1) % cb;
    if q >= 1 { MulNext(q - 1, cb); }
  }

  /** The facts one step of the walk needs. */
  lemma StepReads(img: Bytes, v: Vol, table: Bytes, first: nat, data: Bytes, i: nat)
    requires GeometryOk(v.g) && |img| == v.g.total * SECTOR && |v.fat| == ClusterCount(v.g) + 2
    requires |table| == v.g.spf * SECTOR && TableOf(table, v.fat) && FatsOk(img, v.g, table, FATS)
    requires DataOk(img, v.g, v.clusters, v.nextFree)
    requires first >= 2 && first + i < v.nextFree && Link(v.fat, v.clusters, ClusterBytes(v.g), first, data, i)
    ensures var h, c, cb := HeaderOf(v.g), first + i, ClusterBytes(v.g);
      && cb == h.spc * SECTOR && HCluster(h, c) + cb <= |img|
      && img[HCluster(h, c)..HCluster(h, c) + cb] == Chunk(data, i, cb)
      && (h.reserved + h.spf) * SECTOR <= |img|
      && img[h.reserved * SECTOR..(h.reserved + h.spf) * SECTOR] == table
      && Holds(table, c) && Get(table, c) == v.fat[c]
  {
    hide Chunk, Need, Get, Holds, GeometryOk, ClusterCount, HData, DataStart, FatAt;
    var h, c := HeaderOf(v.g), first + i;
    DataStartAgrees(v.g);
    assert Slice(img, ClusterAt(v.g, c), v.clusters[c]);
    FirstFat(v.g);
    assert Slice(img, FatAt(v.g, 0), table);
  }

  lemma DataStartAgrees(g: Geometry)
    requires GeometryOk(g)
    ensures HData(HeaderOf(g)) == DataStart(g)
  {
  }

  lemma FirstFat(g: Geometry)
    ensures FatAt(g, 0) == SECTOR && FatAt(g, 0) + g.spf * SECTOR == (RESERVED + g.spf) * SECTOR
  {
  }

  lemma {:induction false} ChainReads(img: Bytes, v: Vol, table: Bytes, first: nat, data: Bytes, i: nat)
    requires GeometryOk(v.g) && |img| == v.g.total * SECTOR && |v.fat| == ClusterCount(v.g) + 2
    requires |table| == v.g.spf * SECTOR && TableOf(table, v.fat) && FatsOk(img, v.g, table, FATS)
    requires DataOk(img, v.g, v.clusters, v.nextFree) && ClusterBytes(v.g) > 0
    requires first >= 2 && first + Need(|data|, ClusterBytes(v.g)) <= v.nextFree
    requires Laid(v.fat, v.clusters, ClusterBytes(v.g), first, data)
    requires i <= Reached(first, Need(|data|, ClusterBytes(v.g)))
    ensures var cb, need := ClusterBytes(v.g), Need(|data|, ClusterBytes(v.g));
      ReadChain(img, HeaderOf(v.g), if i < need then first + i else END, Chunks(data, cb, i), |data|)
        == Some(Chunks(data, cb, Reached(first, need)))
    decreases Need(|data|, ClusterBytes(v.g)) - i
  {
    hide Chunk, Need, Get, Holds, GeometryOk, Laid, FatsOk, DataOk, TableOf, HCluster, ClusterCount, Link;
    var cb, need := ClusterBytes(v.g), Need(|data|, ClusterBytes(v.g));
    if i < Reached(first, need) {
      LinkAt(v, cb, first, data, i);
      StepReads(img, v, table, first, data, i);
      NeedCovers(|data|, cb);
      MulMono(i, need - 1, cb);
      ChainReads(img, v, table, first, data, i + 1);
    }
  }

  lemma LinkAt(v: Vol, cb: nat, first: nat, data: Bytes, i: nat)
    requires cb > 0 && Laid(v.fat, v.clusters, cb, first, data) && i < Need(|data|, cb)
    ensures Link(v.fat, v.clusters, cb, first, data, i) && first + i < |v.fat|
    ensures v.fat[first + i] == if i + 1 < Need(|data|, cb) then first + (i + 1) else END
  {
    hide Chunk, Need;
    assert Link(v.fat, v.clusters, cb, first, data, i);
  }

  lemma BlobIsFound(f: File, first: nat, cb: nat)
    requires cb > 0
    ensures var blob := Chunks(f.data, cb, Reached(first, Need(|f.data|, cb)));
      (if |blob| < |f.data| then blob else blob[..|f.data|]) == Found(f, first, cb)
  {
    hide Need, Chunk, Reached;
    var r := Reached(first, Need(|f.data|, cb));
    ChunksStartWithData(f.data, cb, r);
    var blob := Chunks(f.data, cb, r);
    assert f.data[..|f.data|] == f.data && blob[..|blob|] == blob;
  }

  lemma EntryReads(img: Bytes, v: Vol, i: nat)
    requires GeometryOk(v.g) && |img| == v.g.total * SECTOR && i < |v.dirents| <= v.g.rootEntries
    requires RootOk(img, v.g, v.dirents, |v.dirents|)
    ensures var e := RootStart(v.g) * SECTOR + i * DIR_ENTRY;
      && e + DIR_ENTRY <= |img| && img[e] == v.dirents[i].raw[0]
      && Decode(img[e..e + DIR_ENTRY]) == v.dirents[i]
  {
    hide Encode, Decode, ClusterCount;
    var e := RootStart(v.g) * SECTOR + i * DIR_ENTRY;
    assert Slice(img, e, Encode(v.dirents[i]));
    DirentReadsBack(v.dirents[i]);
    assert img[e..e + DIR_ENTRY][0] == img[e];
    FirstByte(v.dirents[i]);
  }

  lemma FirstByte(d: Dirent)
    requires DirentOk(d)
    ensures Encode(d)[0] == d.raw[0]
  {
    hide Le32, Le16Bytes;
  }

  lemma RootInside(g: Geometry, i: nat)
    requires GeometryOk(g) && i < g.rootEntries
    ensures RootStart(g) * SECTOR + i * DIR_ENTRY + DIR_ENTRY <= g.total * SECTOR
  {
  }

  /** One unfolding of the reader and of the listing, side by side. */
  lemma ListStep(img: Bytes, h: Header, d: Dirent, files: seq<File>, cb: nat, j: nat)
    requires cb > 0 && j < |files| && j < h.rootEntries
    requires forall k :: 0 <= k < |files| ==> |files[k].raw| == 11
    requires var e := HRoot(h) + j * DIR_ENTRY;
      e + DIR_ENTRY <= |img| && img[e] == files[j].raw[0] && Decode(img[e..e + DIR_ENTRY]) == d
    requires d.raw == files[j].raw && d.attrs == files[j].attrs
    requires var blob := ReadChain(img, h, d.first, [], d.size);
      && blob.Some?
      && (if |blob.value| < d.size then blob.value else blob.value[..d.size])
           == Found(files[j], FirstOf(files, cb, j), cb)
    requires ReadEntries(img, h, j + 1) == Some(Listing(files, cb, j + 1))
    ensures ReadEntries(img, h, j) == Some(Listing(files, cb, j))
  {
    hide Decode, ReadChain, Found, RStrip, FirstOf, HRoot;
  }

  lemma EndOfList(img: Bytes, v: Vol, files: seq<File>)
    requires ImageOf(img, v) && |v.dirents| == |files| <= v.g.rootEntries && ClusterBytes(v.g) > 0
    requires forall k :: 0 <= k < |files| ==> |files[k].raw| == 11
    ensures ReadEntries(img, HeaderOf(v.g), |files|) == Some([])
  {
    hide GeometryOk, Decode, ReadChain, TableOf, FatsOk, DataOk, RootOk, HRoot, RootStart;
    HeaderReads(img, v.g);
    if |files| < v.g.rootEntries { RootInside(v.g, |files|); }
  }

  lemma {:induction false} EntriesRead(img: Bytes, v: Vol, files: seq<File>, j: nat)
    requires ImageOf(img, v) && Represents(v, files) && j <= |files|
    ensures forall k :: 0 <= k < |files| ==> |files[k].raw| == 11
    ensures ClusterBytes(v.g) > 0
    ensures ReadEntries(img, HeaderOf(v.g), j) == Some(Listing(files, ClusterBytes(v.g), j))
    decreases |files| - j
  {
    hide *;
    RepresentsSizes(v, files);
    FilesOk(v, files);
    CbPositive(v.g);
    ImageParts(img, v);
    HeaderReads(img, v.g);
    if j < |files| {
      EntriesRead(img, v, files, j + 1);
      EntryReads(img, v, j);
      FileReads(img, v, files, j);
      HeaderRoot(v.g);
      ListStep(img, HeaderOf(v.g), v.dirents[j], files, ClusterBytes(v.g), j);
    } else {
      EndOfList(img, v, files);
      NothingListed(files, ClusterBytes(v.g));
    }
  }

  lemma HeaderRoot(g: Geometry)
    ensures HeaderOf(g).rootEntries == g.rootEntries
  {
  }

  lemma NothingListed(files: seq<File>, cb: nat)
    requires cb > 0 && forall k :: 0 <= k < |files| ==> |files[k].raw| == 11
    ensures Listing(files, cb, |files|) == []
  {
  }

  lemma ImageParts(img: Bytes, v: Vol)
    requires ImageOf(img, v)
    ensures GeometryOk(v.g) && |img| == v.g.total * SECTOR && BootOk(img, v.g)
    ensures RootOk(img, v.g, v.dirents, |v.dirents|)
  {
    hide GeometryOk, BootOk, RootOk;
  }

  lemma RepresentsSizes(v: Vol, files: seq<File>)
    requires Represents(v, files)
    ensures GeometryOk(v.g) && |v.dirents| == |files| <= v.g.rootEntries
  {
    hide GeometryOk, Laid;
  }

  lemma FilesOk(v: Vol, files: seq<File>)
    requires Represents(v, files)
    ensures forall k :: 0 <= k < |files| ==> |files[k].raw| == 11
  {
    hide Laid, GeometryOk, FirstOf, Need;
    forall k | 0 <= k < |files|
      ensures |files[k].raw| == 11
    {
      assert FileOk(files[k]);
    }
  }

  /** One file's contents, as the walk over the image collects them. */
  lemma FileReads(img: Bytes, v: Vol, files: seq<File>, j: nat)
    requires ImageOf(img, v) && Represents(v, files) && j < |files|
    ensures ClusterBytes(v.g) > 0
    ensures var cb, d, f := ClusterBytes(v.g), v.dirents[j], files[j];
      && d.raw == f.raw && d.attrs == f.attrs && d.size == |f.data|
      && var blob := ReadChain(img, HeaderOf(v.g), d.first, [], d.size);
      && blob.Some?
      && (if |blob.value| < d.size then blob.value else blob.value[..d.size]) == Found(f, FirstOf(files, cb, j), cb)
  {
    hide Laid, Chunk, GeometryOk, ReadChain, Found, FirstOf, TableOf, FatsOk, DataOk, RootOk, ClusterCount, BootOk;
    hide Reached, Need;
    CbPositive(v.g);
    var cb, f := ClusterBytes(v.g), files[j];
    var first := FirstOf(files, cb, j);
    var table :| |table| == v.g.spf * SECTOR && TableOf(table, v.fat) && FatsOk(img, v.g, table, FATS);
    FirstOfGrows(files, cb, j, |files|);
    assert Laid(v.fat, v.clusters, cb, first, f.data);
    ChainReads(img, v, table, first, f.data, 0);
    BlobIsFound(f, first, cb);
  }

  /** ROUND TRIP, EXACTLY. Reading an image back lists the files added, in order,
      with their contents cut off at cluster FF0 if they reach that far. */
  lemma ReadsBack(img: Bytes, v: Vol, files: seq<File>)
    requires ImageOf(img, v) && Represents(v, files)
    ensures forall k :: 0 <= k < |files| ==> |files[k].raw| == 11
    ensures ClusterBytes(v.g) > 0
    ensures ReadFat12(img) == Some(Listing(files, ClusterBytes(v.g), 0))
  {
    hide GeometryOk, Represents, ReadEntries, Listing, RootOk, DataOk;
    EntriesRead(img, v, files, 0);
    HeaderReads(img, v.g);
  }

  /** A file comes back whole if and only if it is empty or all its clusters are
      numbered below FF0. */
  lemma WholeExactly(f: File, first: nat, cb: nat)
    requires cb > 0
    ensures Found(f, first, cb) == f.data <==> |f.data| == 0 || first + Need(|f.data|, cb) <= READER_END
  {
    hide Need;
    NeedCovers(|f.data|, cb);
    var need := Need(|f.data|, cb);
    var r := Reached(first, need);
    if r < need {
      MulMono(r, need - 1, cb);
    }
  }

  /** ... so up to 4078 clusters every file does. */
  lemma SmallVolumesReadBackWhole(v: Vol, files: seq<File>, j: nat)
    requires Represents(v, files) && j < |files| && ClusterCount(v.g) <= 4078
    ensures ClusterBytes(v.g) > 0
    ensures Found(files[j], FirstOf(files, ClusterBytes(v.g), j), ClusterBytes(v.g)) == files[j].data
  {
    hide Laid, Need, Found, FirstOf, GeometryOk;
    CbPositive(v.g);
    FirstOfGrows(files, ClusterBytes(v.g), j, |files|);
    WholeExactly(files[j], FirstOf(files, ClusterBytes(v.g), j), ClusterBytes(v.g));
  }

  lemma SizeOf4110()
    ensures FatSizeOf(4110, 1, 1) == Ok(13)
  {
    hide SectorsNeeded;
    assert SectorsNeeded(4106) == 13 by { SectorsFor4106(); }
    assert NeededAt(4110, 1, 1, 1) == SectorsNeeded(4106 / 1);
  }

  lemma SectorsFor4106()
    ensures SectorsNeeded(4106) == 13
  {
  }

  lemma PlanOf4110()
    ensures PlanOf(4110, 16, 1) == Ok(Geometry(4110, 1, 16, 13))
    ensures ClusterCount(Geometry(4110, 1, 16, 13)) == 4082
  {
    hide FatSizeOf;
    SizeOf4110();
  }

  lemma ReachesNothing(f: File)
    ensures Found(f, READER_END, SECTOR) == []
  {
    hide Need;
  }

  /** A FILE THAT IS LOST: on a disk of 4110 sectors the constructor takes, any
      first file of 4078 clusters leaves the next one starting at FF0. Both are
      added, and the second reads back empty. */
  lemma CutAtFF0(a: File, b: File)
    requires |a.data| == 4078 * SECTOR && 0 < |b.data| <= SECTOR
    ensures PlanOf(4110, 16, 1) == Ok(Geometry(4110, 1, 16, 13))
    ensures FirstOf([a, b], SECTOR, 2) <= ClusterCount(Geometry(4110, 1, 16, 13)) + 2
    ensures FirstOf([a, b], SECTOR, 1) == READER_END && Found(b, READER_END, SECTOR) == [] != b.data
  {
    hide Need, PlanOf, Found;
    PlanOf4110();
    NeedCovers(|a.data|, SECTOR);
    NeedCovers(|b.data|, SECTOR);
    ReachesNothing(b);
    assert FirstOf([a, b], SECTOR, 1) == FirstOf([a, b], SECTOR, 0) + 4078;
  }
}
