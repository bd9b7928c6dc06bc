/** A volume built by tools/fat12.py, edited by tools/addfile.py and read by
    tools/mkdisk.py. */
module FatRoundTrip {
  import opened FatTable
  import opened FatVolume
  import opened FatImage
  import opened FatLinks
  import opened FatEdit
  import opened FatWriter
  import opened FatEditRead
  import opened FatEditList

  lemma ClustersInside(g: Geometry)
    requires GeometryOk(g)
    ensures HCluster(HeaderOf(g), ClusterCount(g) + 2) <= g.total * SECTOR
  {
    CbPositive(g);
    DataStartAgrees(g);
    WholeClusters(g.total - DataStart(g), g.spc);
  }

  lemma WholeClusters(room: nat, spc: nat)
    requires spc > 0
    ensures room / spc * spc <= room
  {
    assert room == spc * (room / spc) + room % spc;
  }

  lemma TableHolds(n: nat, bytes: nat)
    requires n >= 2 && (3 * n + 1) / 2 <= bytes
    ensures OffsetOf(n - 1) + 1 < bytes
  {
  }

  lemma BuiltShape(g: Geometry, len: nat)
    requires GeometryOk(g) && len == g.total * SECTOR
    ensures Shaped(len, HeaderOf(g), ClusterCount(g) + 2)
    ensures HRoot(HeaderOf(g)) + g.rootEntries * DIR_ENTRY <= len
  {
    hide HRoot, HCluster, ClusterCount, OffsetOf;
    CbPositive(g);
    ClustersInside(g);
    ClusterSizes(g);
    TableHolds(ClusterCount(g) + 2, g.spf * SECTOR);
    ClusterOrder2(HeaderOf(g), ClusterCount(g) + 2);
    RootEnd(HeaderOf(g));
  }

  lemma ClusterOrder2(h: Header, n: nat)
    requires n >= 2
    ensures HCluster(h, 2) <= HCluster(h, n)
  {
    if n > 2 { ClusterOrder(h, 2, n); }
  }

  lemma BuiltLinks(v: Vol, files: seq<File>)
    requires Represents(v, files)
    ensures InRange(v.fat)
  {
    hide GeometryOk, Need, Chunk, FirstOf, ClusterCount;
    CbPositive(v.g);
    var cb := ClusterBytes(v.g);
    forall c | 2 <= c < |v.fat|
      ensures LinkOk(v.fat[c], |v.fat|)
    {
      if c < v.nextFree {
        var j := OwnerOf(files, cb, c, |files|);
        assert Laid(v.fat, v.clusters, cb, FirstOf(files, cb, j), files[j].data);
        assert Link(v.fat, v.clusters, cb, FirstOf(files, cb, j), files[j].data, c - FirstOf(files, cb, j));
        FirstOfGrows(files, cb, j, |files|);
      }
    }
  }

  lemma BuiltCopies(img: Bytes, v: Vol) returns (t: Bytes)
    requires ImageOf(img, v)
    ensures Copies(img, HeaderOf(v.g), t) && TableOf(t, v.fat)
  {
    hide GeometryOk, TableOf, BootOk, RootOk, DataOk, EndOk, Slice;
    t :| |t| == v.g.spf * SECTOR && TableOf(t, v.fat) && FatsOk(img, v.g, t, FATS);
    forall f | 0 <= f < HeaderOf(v.g).fats
      ensures Slice(img, CopyAt(HeaderOf(v.g), f), t)
    {
      assert Slice(img, FatAt(v.g, f), t);
    }
  }

  /** The editor counts the clusters the builder did. */
  lemma CountReads(img: Bytes, g: Geometry)
    requires GeometryOk(g) && BootOk(img, g)
    ensures g.spc > 0 && |img| >= SECTOR && ClustersOn(img, HeaderOf(g)) == ClusterCount(g)
  {
    hide HData, DataStart, Le16, Le32Value;
    DataStartAgrees(g);
  }

  /** A built image is one the editor can work on: it finds the regions and counts
      the clusters the builder laid out. */
  lemma BuiltDisk(img: Bytes, v: Vol, files: seq<File>) returns (t: Bytes)
    requires ImageOf(img, v) && Represents(v, files)
    ensures Disk(img, HeaderOf(v.g), v.fat, t) && InRange(v.fat) && RootInImage(img, HeaderOf(v.g))
    ensures ReadHeader(img) == Some(HeaderOf(v.g))
    ensures v.g.spc > 0 && |img| >= SECTOR && ClustersOn(img, HeaderOf(v.g)) + 2 == |v.fat|
  {
    hide ImageOf, Represents, GeometryOk, Shaped, TableOf, HRoot, Copies, ReadHeader, ClusterCount, BootOk, RootOk;
    BuiltLinks(v, files);
    RepresentsSizes(v, files);
    FatSize(v, files);
    ImageParts(img, v);
    HeaderReads(img, v.g);
    BuiltShape(v.g, |img|);
    CountReads(img, v.g);
    t := BuiltCopies(img, v);
  }

  /** The clusters of file `j`. */
  function ClustersOf(files: seq<File>, cb: nat, j: nat): (cs: seq<nat>)
    requires cb > 0 && j < |files|
    ensures |cs| == Need(|files[j].data|, cb)
    ensures forall i :: 0 <= i < |cs| ==> cs[i] == FirstOf(files, cb, j) + i
  {
    Span(FirstOf(files, cb, j), Need(|files[j].data|, cb))
  }

  function Plus(a: nat, b: nat): nat { a + b }

  /** `n` numbers in a row. */
  function Span(from: nat, n: nat): (s: seq<nat>)
    ensures |s| == n && forall i :: 0 <= i < n ==> s[i] == from + i
  {
    seq(n, i requires 0 <= i => Plus(from, i))
  }

  lemma BuiltLinkAt(v: Vol, files: seq<File>, j: nat, i: nat)
    requires Represents(v, files) && j < |files| && ClusterBytes(v.g) > 0
    requires i < Need(|files[j].data|, ClusterBytes(v.g))
    ensures var c := FirstOf(files, ClusterBytes(v.g), j) + i;
      && c < v.nextFree <= |v.fat| == ClusterCount(v.g) + 2
      && v.fat[c] == if i + 1 < Need(|files[j].data|, ClusterBytes(v.g)) then c + 1 else END
  {
    hide GeometryOk, Need, Chunk, FirstOf, ClusterCount;
    CbPositive(v.g);
    var cb := ClusterBytes(v.g);
    FirstOfGrows(files, cb, j, |files|);
    assert Laid(v.fat, v.clusters, cb, FirstOf(files, cb, j), files[j].data);
    assert Link(v.fat, v.clusters, cb, FirstOf(files, cb, j), files[j].data, i);
  }

  lemma BuiltChain(v: Vol, files: seq<File>, j: nat)
    requires Represents(v, files) && j < |files| && v.nextFree <= READER_END
    ensures ClusterBytes(v.g) > 0
    ensures IsChain(v.fat, ClustersOf(files, ClusterBytes(v.g), j))
  {
    hide Represents, GeometryOk, Need, FirstOf, ClusterCount, ClustersOf;
    RepresentsSizes(v, files);
    CbPositive(v.g);
    var cb := ClusterBytes(v.g);
    var cs := ClustersOf(files, cb, j);
    forall i | 0 <= i < |cs|
      ensures 2 <= cs[i] < |v.fat| && cs[i] < READER_END
    {
      BuiltLinkAt(v, files, j, i);
    }
    forall i | 0 <= i < |cs| - 1
      ensures v.fat[cs[i]] == cs[i + 1]
    {
      BuiltLinkAt(v, files, j, i);
    }
    BuiltLinkAt(v, files, j, |cs| - 1);
  }

  /** The chain an edit frees: the named file's, or none. */
  function Freeing(files: seq<File>, cb: nat, at: nat): nat
    requires cb > 0
  {
    if at < |files| then FirstOf(files, cb, at) else 0
  }

  lemma BuiltApart(v: Vol, files: seq<File>, i: nat, at: nat)
    requires Represents(v, files) && i < |files| && i != at && v.nextFree <= READER_END
    ensures ClusterBytes(v.g) > 0 && InRange(v.fat)
    ensures var cb := ClusterBytes(v.g);
      && LinkOk(Freeing(files, cb, at), |v.fat|)
      && Apart(v.fat, Freeing(files, cb, at), FirstOf(files, cb, i))
  {
    hide GeometryOk, Need, FirstOf, ClusterCount, ClustersOf, IsChain, Laid;
    BuiltLinks(v, files);
    CbPositive(v.g);
    var cb := ClusterBytes(v.g);
    var c, cs := Freeing(files, cb, at), ClustersOf(files, cb, i);
    BuiltChain(v, files, i);
    if at < |files| {
      BuiltChain(v, files, at);
      TrailOfChain(v.fat, ClustersOf(files, cb, at));
      ChainHead(v.fat, ClustersOf(files, cb, at));
      if i < at { FirstOfGrows(files, cb, i, at); } else { FirstOfGrows(files, cb, at, i); }
    }
    assert ChainApart(v.fat, c, FirstOf(files, cb, i), cs);
  }

  lemma BuiltEntry(img: Bytes, v: Vol, files: seq<File>, i: nat)
    requires ImageOf(img, v) && Represents(v, files) && i < |files|
    ensures ClusterBytes(v.g) > 0 && RootInImage(img, HeaderOf(v.g)) && i < v.g.rootEntries
    ensures var h := HeaderOf(v.g);
      && NameAt(img, h, i) == files[i].raw && |files[i].raw| == 11
      && img[EntryAt(h, i)] == files[i].raw[0]
      && FirstAt(img, h, i) == FirstOf(files, ClusterBytes(v.g), i)
  {
    hide GeometryOk, Laid, BootOk, DataOk, TableOf, FatsOk, EndOk, Decode;
    hide FirstAt, FirstOf, NameAt, ClusterCount, RootStart;
    hide HRoot;
    CbPositive(v.g);
    FilesOk(v, files);
    HeaderReads(img, v.g);
    BuiltShape(v.g, |img|);
    EntryReads(img, v, i);
    EntryFields(img, HeaderOf(v.g), i);
  }

  lemma BuiltEnd(img: Bytes, v: Vol, files: seq<File>, i: nat)
    requires ImageOf(img, v) && Represents(v, files) && |files| <= i < v.g.rootEntries
    ensures RootInImage(img, HeaderOf(v.g)) && img[EntryAt(HeaderOf(v.g), i)] == 0
  {
    hide GeometryOk, Laid, BootOk, DataOk, TableOf, FatsOk, RootOk, FirstOf, ClusterCount, RootStart, HRoot;
    HeaderReads(img, v.g);
    BuiltShape(v.g, |img|);
    assert EntryAt(HeaderOf(v.g), i) == RootStart(v.g) * SECTOR + i * DIR_ENTRY;
  }

  lemma BuiltOtherApart(img: Bytes, v: Vol, files: seq<File>, at: nat, i: nat)
    requires ImageOf(img, v) && Represents(v, files) && v.nextFree <= READER_END
    requires i < v.g.rootEntries && i != at && ClusterBytes(v.g) > 0 && InRange(v.fat)
    requires LinkOk(Freeing(files, ClusterBytes(v.g), at), |v.fat|) && RootInImage(img, HeaderOf(v.g))
    ensures Visible(img, HeaderOf(v.g), at, i)
        ==> Apart(v.fat, Freeing(files, ClusterBytes(v.g), at), FirstAt(img, HeaderOf(v.g), i))
  {
    hide ImageOf, Represents, FirstOf, FirstAt, EntryAt, GeometryOk, Apart, ClusterCount;
    hide Freeing, InRange, LinkOk, HRoot;
    hide ClusterBytes;
    EntryInImage(img, HeaderOf(v.g), i);
    if i < |files| {
      BuiltEntry(img, v, files, i);
      BuiltApart(v, files, i, at);
    } else {
      BuiltEnd(img, v, files, i);
    }
  }

  lemma BuiltOthersApart(img: Bytes, v: Vol, files: seq<File>, at: nat)
    requires ImageOf(img, v) && Represents(v, files) && v.nextFree <= READER_END
    ensures ClusterBytes(v.g) > 0 && InRange(v.fat) && RootInImage(img, HeaderOf(v.g))
    ensures LinkOk(Freeing(files, ClusterBytes(v.g), at), |v.fat|)
    ensures OthersApart(img, HeaderOf(v.g), v.fat, Freeing(files, ClusterBytes(v.g), at), at)
  {
    hide ImageOf, Represents, FirstOf, FirstAt, EntryAt, GeometryOk, Apart, ClusterCount, Freeing, HRoot, Visible;
    hide ClusterBytes, Disk, InRange, LinkOk, ReadHeader;
    var t := BuiltDisk(img, v, files);
    FreeingOk(v, files, at);
    forall i | 0 <= i < v.g.rootEntries
      ensures EntryAt(HeaderOf(v.g), i) + DIR_ENTRY <= |img|
    {
      EntryInImage(img, HeaderOf(v.g), i);
    }
    forall i | 0 <= i < v.g.rootEntries && i != at && Visible(img, HeaderOf(v.g), at, i)
      ensures Apart(v.fat, Freeing(files, ClusterBytes(v.g), at), FirstAt(img, HeaderOf(v.g), i))
    {
      BuiltOtherApart(img, v, files, at, i);
    }
  }

  lemma FreeingOk(v: Vol, files: seq<File>, at: nat)
    requires Represents(v, files)
    ensures ClusterBytes(v.g) > 0 && LinkOk(Freeing(files, ClusterBytes(v.g), at), |v.fat|)
  {
    hide GeometryOk, Laid, Need, FirstOf;
    CbPositive(v.g);
    if at < |files| { FirstOfGrows(files, ClusterBytes(v.g), at, |files|); }
  }

  // ---- the listing ------------------------------------------------------------------------

  /** The listing with one name replaced, or added at the end. */
  function Placed(l: seq<Named>, at: nat, item: Named): seq<Named>
    requires at <= |l|
  {
    l[..at] + [item] + if at < |l| then l[at + 1..] else []
  }

  lemma Pieces(l: seq<Named>, at: nat, b: Names, item: Named, tail: seq<Named>)
    requires at <= |l| && Some(l) == Join(b, Some(l[at..])) && tail == if at < |l| then l[at + 1..] else []
    ensures Join(b, Join(Some([item]), Some(tail))) == Some(Placed(l, at, item))
  {
    assert b.Some? && b.value == l[..at] by {
      assert |b.value| == at;
      assert (b.value + l[at..])[..at] == b.value;
    }
    assert b.value + ([item] + tail) == l[..at] + [item] + tail;
  }

  lemma {:induction false} PlainTail(files: seq<File>, cb: nat, j: nat)
    requires cb > 0 && j <= |files|
    requires forall k :: 0 <= k < |files| ==> |files[k].raw| == 11 && Plain(files[k])
    requires FirstOf(files, cb, |files|) <= READER_END
    ensures var l := Listing(files, cb, 0); |l| == |files| && Listing(files, cb, j) == l[j..]
  {
    hide Listing, FirstOf, Plain;
    PlainFilesAllListed(files, cb, 0);
    PlainFilesAllListed(files, cb, j);
    var l, m := Listing(files, cb, 0), Listing(files, cb, j);
    forall k | j <= k < |files|
      ensures m[k - j] == l[k]
    {
      assert l[k - 0] == Named(RStrip(files[k].raw[..8]), RStrip(files[k].raw[8..]), files[k].data);
    }
    assert forall x :: 0 <= x < |m| ==> m[x] == m[(x + j) - j] == l[j..][x];
  }

  /** BUILD, EDIT, READ. After an edit of a built image no file of which reaches FF0,
      every reader lists the files as before, with the named one replaced where it
      stood or added at the end: whole, exactly if its own clusters stay below FF0. */
  lemma EditOfBuilt(s: Bytes, img: Bytes, v: Vol, files: seq<File>, at: nat, ent: Bytes, body: Bytes)
    requires ImageOf(img, v) && Represents(v, files) && v.nextFree <= READER_END
    requires forall k :: 0 <= k < |files| ==> |files[k].raw| == 11 && Plain(files[k])
    requires at <= |files| && at < v.g.rootEntries && |ent| == 11 && ent[0] != 0 && ent[0] != 0xE5
    requires InRange(v.fat) && ClusterBytes(v.g) > 0 && ClusterSize(HeaderOf(v.g)) > 0
    requires LinkOk(Freeing(files, ClusterBytes(v.g), at), |v.fat|)
    requires Edited(s, img, HeaderOf(v.g), v.fat, Freeing(files, ClusterBytes(v.g), at), at, ent, body)
    ensures |Listing(files, ClusterBytes(v.g), 0)| == |files|
    ensures var h, c := HeaderOf(v.g), Freeing(files, ClusterBytes(v.g), at);
      && Need(|body|, ClusterSize(h)) <= |Frees(Freed(v.fat, c), |v.fat|)|
      && var shown := NewContents(s, h, v.fat, c, body);
      && Lists(s, Listing(files, ClusterBytes(v.g), 0), at, ent, shown)
      && (shown == body <==> |body| == 0 || LastTaken(h, v.fat, c, body) < READER_END)
  {
    hide ImageOf, Represents, FirstOf, EntryAt, RootInImage, GeometryOk, ClusterCount, Edited, Disk, Freeing, Listing;
    hide ReadEntries, Before, OthersApart, NewNamed, NewContents, Join, HRoot, ReadHeader, Plain, LastTaken;
    var h, cb := HeaderOf(v.g), ClusterBytes(v.g);
    var c := Freeing(files, cb, at);
    var t := BuiltDisk(img, v, files);
    BuiltOthersApart(img, v, files, at);
    DiskRoom(img, h, v.fat, t);
    RepresentsSizes(v, files);
    NextFreeOf(v, files);
    BuiltStarts(img, v, files, at);
    EditedListing(s, img, h, v.fat, t, c, at, ent, body);
    var item := NewNamed(ent, NewContents(s, h, v.fat, c, body));
    PlainTail(files, cb, at);
    EntriesRead(img, v, files, 0);
    EntriesRead(img, v, files, at);
    var l := Listing(files, cb, 0);
    if at < |files| {
      PlainTail(files, cb, at + 1);
      EntriesRead(img, v, files, at + 1);
      Pieces(l, at, Before(img, h, 0, at), item, l[at + 1..]);
    } else {
      BuiltTail(img, v, files);
      Pieces(l, at, Before(img, h, 0, at), item, []);
    }
    SameHeader(s, img, v, files, at, ent, body);
  }

  lemma NextFreeOf(v: Vol, files: seq<File>)
    requires Represents(v, files)
    ensures ClusterBytes(v.g) > 0 && v.nextFree == FirstOf(files, ClusterBytes(v.g), |files|) <= |v.fat|
  {
    hide GeometryOk, Laid, FirstOf;
    CbPositive(v.g);
  }

  /** No entry before the end of a built directory marks the end. */
  lemma BuiltStarts(img: Bytes, v: Vol, files: seq<File>, at: nat)
    requires ImageOf(img, v) && Represents(v, files) && at <= |files| && at < v.g.rootEntries
    requires forall k :: 0 <= k < |files| ==> |files[k].raw| == 11 && Plain(files[k])
    ensures RootInImage(img, HeaderOf(v.g)) && NoEndBefore(img, HeaderOf(v.g), at)
  {
    hide ImageOf, Represents, EntryAt, RootInImage, Plain, HRoot, ReadHeader, Disk, InRange;
    var t := BuiltDisk(img, v, files);
    forall j | 0 <= j < at
      ensures EntryAt(HeaderOf(v.g), j) < |img| && img[EntryAt(HeaderOf(v.g), j)] != 0
    {
      EntryInImage(img, HeaderOf(v.g), j);
      BuiltEntry(img, v, files, j);
      assert Plain(files[j]);
      PlainStarts(files[j]);
    }
  }

  /** Nothing is listed from behind a built directory's end mark. */
  lemma BuiltTail(img: Bytes, v: Vol, files: seq<File>)
    requires ImageOf(img, v) && Represents(v, files)
    ensures ReadEntries(img, HeaderOf(v.g), |files| + 1) == Some([])
  {
    hide ImageOf, Represents, EntryAt, RootInImage, HRoot, ReadEntries;
    if |files| + 1 < v.g.rootEntries {
      BuiltEnd(img, v, files, |files| + 1);
      EndMark(img, HeaderOf(v.g), |files| + 1);
    } else {
      NoEntries(img, HeaderOf(v.g), |files| + 1);
    }
  }

  lemma PlainStarts(f: File)
    requires Plain(f)
    ensures |f.raw| == 11 && f.raw[0] != 0 && f.raw[0] != 0xE5
  {
  }

  lemma SameHeader(s: Bytes, img: Bytes, v: Vol, files: seq<File>, at: nat, ent: Bytes, body: Bytes)
    requires ImageOf(img, v) && Represents(v, files) && |ent| == 11 && |v.fat| <= 0xFFF
    requires InRange(v.fat) && ClusterBytes(v.g) > 0 && ClusterSize(HeaderOf(v.g)) > 0
    requires LinkOk(Freeing(files, ClusterBytes(v.g), at), |v.fat|)
    requires Edited(s, img, HeaderOf(v.g), v.fat, Freeing(files, ClusterBytes(v.g), at), at, ent, body)
    ensures ReadFat12(s) == ReadEntries(s, HeaderOf(v.g), 0)
  {
    hide GeometryOk, Laid, TableOf, FatsOk, RootOk, DataOk, EndOk, ReadEntries, Represents;
    hide Freed, Frees, Need, Taken, LinkUp, Disk, Written, Freeing, NewEntry, OtherEntries, Slice, Le16;
    RepresentsSizes(v, files);
    HeaderReads(img, v.g);
    assert CopyAt(HeaderOf(v.g), 0) == SECTOR;
    assert forall k :: 0 <= k < 24 ==> s[k] == img[k];
  }

  /** Where the name is first, or the end if it is nowhere. */
  function Where(files: seq<File>, raw: Bytes): (at: nat)
    ensures at <= |files| && (at < |files| ==> files[at].raw == raw)
    ensures forall j :: 0 <= j < at ==> files[j].raw != raw
  {
    if files == [] || files[0].raw == raw then 0
    else
      var at := Where(files[1..], raw);
      assert forall j :: 0 < j < at + 1 ==> files[j] == files[1..][j - 1];
      at + 1
  }

  /** A reader lists `l` with the new file placed at `at`. */
  predicate Lists(img: Bytes, l: seq<Named>, at: nat, ent: Bytes, shown: Bytes)
    requires at <= |l| && |ent| == 11
  {
    ReadFat12(img) == Some(Placed(l, at, NewNamed(ent, shown)))
  }

  // ---- the clusters of an edit ---------------------------------------------------------------

  lemma BuiltZero(v: Vol, files: seq<File>, k: nat)
    requires Represents(v, files) && 2 <= k < |v.fat|
    ensures v.fat[k] == 0 <==> k >= v.nextFree
  {
    hide GeometryOk, Need, Chunk, FirstOf, ClusterCount;
    CbPositive(v.g);
    if k < v.nextFree {
      var cb := ClusterBytes(v.g);
      var j := OwnerOf(files, cb, k, |files|);
      BuiltLinkAt(v, files, j, k - FirstOf(files, cb, j));
    }
  }

  /** The clusters free once the named file's are back: its own, then the rest. */
  function FreeRun(v: Vol, files: seq<File>, at: nat): seq<nat>
    requires ClusterBytes(v.g) > 0 && v.nextFree <= |v.fat|
  {
    (if at < |files| then ClustersOf(files, ClusterBytes(v.g), at) else []) + Span(v.nextFree, |v.fat| - v.nextFree)
  }

  lemma FreeRunIncreases(v: Vol, files: seq<File>, at: nat)
    requires Represents(v, files)
    ensures ClusterBytes(v.g) > 0 && v.nextFree <= |v.fat|
    ensures var f := FreeRun(v, files, at); forall i, j :: 0 <= i < j < |f| ==> f[i] < f[j]
  {
    hide Represents, Need, FirstOf, ClustersOf, Span, ClusterBytes;
    NextFreeOf(v, files);
    if at < |files| { FirstOfGrows(files, ClusterBytes(v.g), at, |files|); }
  }

  lemma InSpan(from: nat, n: nat, k: nat)
    ensures k in Span(from, n) <==> from <= k < from + n
  {
    if from <= k < from + n { assert Span(from, n)[k - from] == k; }
  }

  lemma InFreeRun(v: Vol, files: seq<File>, at: nat, k: nat)
    requires Represents(v, files) && v.nextFree <= READER_END
    ensures ClusterBytes(v.g) > 0 && v.nextFree <= |v.fat| && InRange(v.fat)
    ensures LinkOk(Freeing(files, ClusterBytes(v.g), at), |v.fat|)
    ensures k in FreeRun(v, files, at)
       <==> 2 <= k < |v.fat| && Freed(v.fat, Freeing(files, ClusterBytes(v.g), at))[k] == 0
  {
    hide Represents, Need, FirstOf, Span, ClusterBytes, InRange, IsChain, Freed, Trail;
    NextFreeOf(v, files);
    BuiltLinks(v, files);
    FreeingOk(v, files, at);
    var cb := ClusterBytes(v.g);
    InSpan(v.nextFree, |v.fat| - v.nextFree, k);
    FirstOfBounds(files, cb, at);
    if at < |files| {
      InSpan(FirstOf(files, cb, at), Need(|files[at].data|, cb), k);
      BuiltChain(v, files, at);
      TrailOfChain(v.fat, ClustersOf(files, cb, at));
      InElems(k, ClustersOf(files, cb, at));
    } else {
      NoTrail(v.fat);
    }
    if 2 <= k < |v.fat| {
      FreedExactly(v.fat, Freeing(files, cb, at), k);
      BuiltZero(v, files, k);
    }
  }

  lemma NoTrail(fat: seq<Entry>)
    requires InRange(fat) && LinkOk(0, |fat|)
    ensures Trail(fat, 0) == {}
  {
  }

  lemma FirstOfBounds(files: seq<File>, cb: nat, at: nat)
    requires cb > 0
    ensures FirstOf(files, cb, |files|) >= 2
    ensures at < |files| ==>
      2 <= FirstOf(files, cb, at) && FirstOf(files, cb, at) + Need(|files[at].data|, cb) <= FirstOf(files, cb, |files|)
  {
    hide FirstOf, Need;
    if at < |files| { FirstOfGrows(files, cb, at, |files|); }
  }

  /** WHAT AN EDIT OF A BUILT IMAGE CAN TAKE, and in which order. */
  lemma BuiltFrees(v: Vol, files: seq<File>, at: nat)
    requires Represents(v, files) && v.nextFree <= READER_END
    ensures ClusterBytes(v.g) > 0 && v.nextFree <= |v.fat| && InRange(v.fat)
    ensures LinkOk(Freeing(files, ClusterBytes(v.g), at), |v.fat|)
    ensures Frees(Freed(v.fat, Freeing(files, ClusterBytes(v.g), at)), |v.fat|) == FreeRun(v, files, at)
  {
    hide Represents, FreeRun, Freed, Freeing, InRange, Frees, ClusterBytes, LinkOk;
    InFreeRun(v, files, at, 0);
    FreeRunIncreases(v, files, at);
    var freed := Freed(v.fat, Freeing(files, ClusterBytes(v.g), at));
    FreesAreAll(freed, |v.fat|);
    forall k
      ensures k in Frees(freed, |v.fat|) <==> k in FreeRun(v, files, at)
    {
      InFreeRun(v, files, at, k);
    }
    SameIncreasing(Frees(freed, |v.fat|), FreeRun(v, files, at));
  }

  /** THE EDIT AS IT IS RUN, on a built image no file of which reaches FF0: the exact
      condition for each error, and otherwise what every reader lists, with the new
      file whole exactly if the last cluster it takes is below FF0. */
  method AddToBuilt(disk: Bytes, g: Geometry, ent: Bytes, body: Bytes, ghost v: Vol, ghost files: seq<File>)
      returns (r: Result<nat>, img: array<Octet>)
    requires ImageOf(disk, v) && Represents(v, files) && v.g == g && v.nextFree <= READER_END
    requires forall k :: 0 <= k < |files| ==> |files[k].raw| == 11 && Plain(files[k])
    requires |ent| == 11 && ent[0] != 0 && ent[0] != 0xE5
    ensures fresh(img) && ClusterBytes(g) > 0 && |Listing(files, ClusterBytes(g), 0)| == |files|
    ensures v.nextFree <= |v.fat|
    ensures var at := Where(files, ent);
      var free, need := FreeRun(v, files, at), Need(|body|, ClusterBytes(g));
      && r == (if at == g.rootEntries then Err(RootFull) else if need > |free| then Err(NoRoom) else Ok(free[0]))
      && (r.Ok? ==> exists shown ::
            && Lists(img[..], Listing(files, ClusterBytes(g), 0), at, ent, shown)
            && (shown == body <==> |body| == 0 || free[need - 1] < READER_END))
  {
    hide ImageOf, Represents, FirstOf, EntryAt, RootInImage, GeometryOk, ClusterCount, Edited, Disk, Listing;
    hide ReadFat12, NewNamed, HRoot, ReadHeader, Plain, NameAt, FirstAt, Freed, Frees, Need, Placed, FreeRun;
    hide Freeing, NewContents, InRange, Lists;
    var h := HeaderOf(g);
    RepresentsSizes(v, files);
    NextFreeOf(v, files);
    CbPositive(g);
    ghost var cb := ClusterBytes(g);
    PlainTail(files, cb, 0);
    ghost var t := BuiltDisk(disk, v, files);
    FreeingAll(disk, v, files, ent);
    FatSize(v, files);
    var slot;
    r, img, slot := AddFile(disk, h, ClusterCount(g) + 2, ent, body, v.fat, t);
    BuiltSlot(disk, v, files, ent, slot);
    if slot.Some? {
      BuiltFrees(v, files, slot.value.at);
      if r.Ok? {
        EditOfBuilt(img[..], disk, v, files, slot.value.at, ent, body);
      }
    }
  }

  lemma FatSize(v: Vol, files: seq<File>)
    requires Represents(v, files)
    ensures |v.fat| == ClusterCount(v.g) + 2
  {
    hide GeometryOk, Laid, FirstOf;
  }

  lemma NotThere(disk: Bytes, v: Vol, files: seq<File>, ent: Bytes, i: nat)
    requires ImageOf(disk, v) && Represents(v, files) && |files| <= i < v.g.rootEntries
    requires |ent| == 11 && ent[0] != 0
    ensures RootInImage(disk, HeaderOf(v.g)) && EntryAt(HeaderOf(v.g), i) + DIR_ENTRY <= |disk|
    ensures NameAt(disk, HeaderOf(v.g), i) != ent && Unused(disk, HeaderOf(v.g), i)
  {
    hide ImageOf, Represents, EntryAt, GeometryOk, RootInImage;
    BuiltEnd(disk, v, files, i);
    EntryInImage(disk, HeaderOf(v.g), i);
    assert NameAt(disk, HeaderOf(v.g), i)[0] == disk[EntryAt(HeaderOf(v.g), i)];
  }

  lemma FreeingAll(disk: Bytes, v: Vol, files: seq<File>, ent: Bytes)
    requires ImageOf(disk, v) && Represents(v, files) && |ent| == 11 && ent[0] != 0
    ensures RootInImage(disk, HeaderOf(v.g))
    ensures forall i :: 0 <= i < v.g.rootEntries && NameAt(disk, HeaderOf(v.g), i) == ent
              ==> LinkOk(FirstAt(disk, HeaderOf(v.g), i), |v.fat|)
  {
    hide ImageOf, Represents, FirstOf, EntryAt, GeometryOk, FirstAt, NameAt, Unused, HRoot;
    var t := BuiltDisk(disk, v, files);
    forall i | 0 <= i < v.g.rootEntries
      ensures EntryAt(HeaderOf(v.g), i) + DIR_ENTRY <= |disk|
    {
      EntryInImage(disk, HeaderOf(v.g), i);
    }
    forall i | 0 <= i < v.g.rootEntries && NameAt(disk, HeaderOf(v.g), i) == ent
      ensures LinkOk(FirstAt(disk, HeaderOf(v.g), i), |v.fat|)
    {
      if i < |files| {
        BuiltEntry(disk, v, files, i);
        FreeingOk(v, files, i);
      } else {
        NotThere(disk, v, files, ent, i);
      }
    }
  }

  /** On a built image the search finds the file of that name, or the end. */
  lemma BuiltSlot(disk: Bytes, v: Vol, files: seq<File>, ent: Bytes, slot: Option<Slot>)
    requires ImageOf(disk, v) && Represents(v, files) && |ent| == 11 && ent[0] != 0
    requires forall k :: 0 <= k < |files| ==> |files[k].raw| == 11 && Plain(files[k])
    requires RootInImage(disk, HeaderOf(v.g)) && IsSlot(disk, HeaderOf(v.g), ent, slot)
    ensures slot.None? <==> Where(files, ent) == v.g.rootEntries
    ensures slot.Some? ==>
      var at := slot.value.at;
      && at == Where(files, ent) < v.g.rootEntries && ClusterBytes(v.g) > 0
      && OldFirst(disk, HeaderOf(v.g), slot.value) == Freeing(files, ClusterBytes(v.g), at)
  {
    hide ImageOf, Represents, FirstOf, EntryAt, GeometryOk, FirstAt, NameAt, HRoot, Plain, Unused, RootInImage;
    var h := HeaderOf(v.g);
    RepresentsSizes(v, files);
    CbPositive(v.g);
    forall i | 0 <= i < |files|
      ensures EntryAt(h, i) + DIR_ENTRY <= |disk|
      ensures NameAt(disk, h, i) == files[i].raw && !Unused(disk, h, i)
      ensures FirstAt(disk, h, i) == FirstOf(files, ClusterBytes(v.g), i)
    {
      EntryInImage(disk, h, i);
      InUse(disk, v, files, i);
    }
    forall i | |files| <= i < v.g.rootEntries
      ensures EntryAt(h, i) + DIR_ENTRY <= |disk|
      ensures NameAt(disk, h, i) != ent && Unused(disk, h, i)
    {
      NotThere(disk, v, files, ent, i);
    }
    match slot
    case None =>
      assert forall j :: 0 <= j < |files| ==> NameAt(disk, h, j) == files[j].raw;
      if |files| < v.g.rootEntries {
        NotThere(disk, v, files, ent, |files|);
        assert false;
      }
    case Some(found) =>
      assert forall j :: 0 <= j < |files| ==> NameAt(disk, h, j) == files[j].raw;
      if found.at > |files| {
        NotThere(disk, v, files, ent, found.at);
        NotThere(disk, v, files, ent, |files|);
        assert false;
      }
  }

  lemma InUse(disk: Bytes, v: Vol, files: seq<File>, i: nat)
    requires ImageOf(disk, v) && Represents(v, files) && i < |files| && Plain(files[i])
    ensures ClusterBytes(v.g) > 0 && RootInImage(disk, HeaderOf(v.g)) && i < v.g.rootEntries
    ensures EntryAt(HeaderOf(v.g), i) + DIR_ENTRY <= |disk|
    ensures NameAt(disk, HeaderOf(v.g), i) == files[i].raw && !Unused(disk, HeaderOf(v.g), i)
    ensures FirstAt(disk, HeaderOf(v.g), i) == FirstOf(files, ClusterBytes(v.g), i)
  {
    hide ImageOf, Represents, FirstOf, EntryAt, GeometryOk, FirstAt, NameAt, HRoot, RootInImage;
    BuiltEntry(disk, v, files, i);
    EntryInImage(disk, HeaderOf(v.g), i);
  }
}
