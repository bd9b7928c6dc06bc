/** tools/fat12.py: a FAT12 volume built file by file and written out whole. */
module FatVolume {
  import opened FatTable

  const SECTOR: nat := 512
  const DIR_ENTRY: nat := 32
  const RESERVED: nat := 1
  const FATS: nat := 2
  const END: Entry := 0xFFF
  const MAX_CLUSTERS: nat := 4084

  type Bytes = seq<Octet>

  datatype Error = TooSmall | RootNotWhole | BadClusterSize | NoRoomForFat | TooManyClusters
                 | Exists | RootFull | NoRoom

  datatype Result<+T> = Ok(value: T) | Err(error: Error)
  datatype Option<+T> = None | Some(value: T)

  /** `spc` sectors a cluster, `spf` sectors a FAT. */
  datatype Geometry = Geometry(total: nat, spc: nat, rootEntries: nat, spf: nat)

  function RootSectors(g: Geometry): nat { g.rootEntries * DIR_ENTRY / SECTOR }
  function RootStart(g: Geometry): nat { RESERVED + FATS * g.spf }
  function DataStart(g: Geometry): nat { RootStart(g) + RootSectors(g) }
  function ClusterBytes(g: Geometry): nat { SECTOR * g.spc }

  function ClusterCount(g: Geometry): nat
    requires g.spc > 0 && DataStart(g) <= g.total
  {
    (g.total - DataStart(g)) / g.spc
  }

  predicate GeometryOk(g: Geometry) {
    && g.spc in {1, 2, 4, 8, 16, 32, 64} && g.rootEntries % 16 == 0
    && 0 < g.spf && DataStart(g) < g.total
    && ClusterCount(g) <= MAX_CLUSTERS
    && (3 * (ClusterCount(g) + 2) + 1) / 2 <= g.spf * SECTOR
  }

  /** Where cluster `c` starts, in bytes. */
  function ClusterAt(g: Geometry, c: nat): nat
    requires c >= 2
  {
    (DataStart(g) + (c - 2) * g.spc) * SECTOR
  }

  // ---- the constructor's sizing loop ------------------------------------------------

  function SectorsNeeded(clusters: nat): nat { (((clusters + 2) * 3 + 1) / 2 + SECTOR - 1) / SECTOR }

  predicate Room(total: nat, rootSectors: nat, spf: nat) { total > RESERVED + FATS * spf + rootSectors }

  /** Sectors a FAT needs for the clusters that FATs of `spf` sectors leave behind. */
  function NeededAt(total: nat, spc: nat, rootSectors: nat, spf: nat): nat
    requires spc > 0 && Room(total, rootSectors, spf)
  {
    SectorsNeeded((total - RESERVED - FATS * spf - rootSectors) / spc)
  }

  lemma FewerWithMore(a: nat, b: nat, spc: nat)
    requires spc > 0 && a <= b
    ensures a / spc <= b / spc
  {
    assert a == spc * (a / spc) + a % spc && b == spc * (b / spc) + b % spc;
    if a / spc > b / spc {
      MulMono(b / spc + 1, a / spc, spc);
    }
  }

  /** A bigger FAT leaves fewer clusters, and so never needs to be bigger yet. */
  lemma NeedFalls(total: nat, spc: nat, rootSectors: nat, spf: nat, more: nat)
    requires spc > 0 && spf <= more && Room(total, rootSectors, more)
    ensures NeededAt(total, spc, rootSectors, more) <= NeededAt(total, spc, rootSectors, spf)
  {
    FewerWithMore(total - RESERVED - FATS * more - rootSectors, total - RESERVED - FATS * spf - rootSectors, spc);
  }

  /** One sector if that is enough, and otherwise what one sector would have needed. */
  function FatSizeOf(total: nat, spc: nat, rootSectors: nat): (r: Result<nat>)
    requires spc > 0
    ensures r.Ok? ==> r.value > 0 && Room(total, rootSectors, r.value)
  {
    if !Room(total, rootSectors, 1) then Err(NoRoomForFat)
    else
      var n := NeededAt(total, spc, rootSectors, 1);
      if n <= 1 then Ok(1) else if Room(total, rootSectors, n) then Ok(n) else Err(NoRoomForFat)
  }

  /** Tries sizes until one is big enough for the clusters it leaves behind: the
      first or the second it tries. */
  method SizeFat(total: nat, spc: nat, rootSectors: nat) returns (r: Result<nat>)
    requires spc > 0
    ensures r == FatSizeOf(total, spc, rootSectors)
    ensures r.Ok? ==>
      && 0 < r.value && Room(total, rootSectors, r.value)
      && NeededAt(total, spc, rootSectors, r.value) <= r.value
  {
    hide SectorsNeeded;
    var spf := 1;
    while true
      invariant spf == 1 || (Room(total, rootSectors, 1) && spf == NeededAt(total, spc, rootSectors, 1) > 1)
      decreases if spf == 1 then 1 else 0
    {
      if !Room(total, rootSectors, spf) { return Err(NoRoomForFat); }
      var need := NeededAt(total, spc, rootSectors, spf);
      if need <= spf { return Ok(spf); }
      if spf > 1 {
        NeedFalls(total, spc, rootSectors, 1, spf);
        assert false;
      }
      spf := need;
    }
  }

  /** What the constructor makes of its arguments, or the error it raises. */
  function PlanOf(total: nat, rootEntries: nat, spc: nat): Result<Geometry> {
    if total < 16 then Err(TooSmall)
    else if rootEntries % (SECTOR / DIR_ENTRY) != 0 then Err(RootNotWhole)
    else if spc !in {1, 2, 4, 8, 16, 32, 64} then Err(BadClusterSize)
    else
      var spf := FatSizeOf(total, spc, rootEntries * DIR_ENTRY / SECTOR);
      if spf.Err? then Err(spf.error)
      else
        var g := Geometry(total, spc, rootEntries, spf.value);
        if ClusterCount(g) > MAX_CLUSTERS then Err(TooManyClusters) else Ok(g)
  }

  method Plan(total: nat, rootEntries: nat, spc: nat) returns (r: Result<Geometry>)
    ensures r == PlanOf(total, rootEntries, spc)
    ensures r.Ok? ==> GeometryOk(r.value)
    ensures r.Ok? ==> r.value.total == total && r.value.rootEntries == rootEntries && r.value.spc == spc
  {
    hide FatSizeOf;
    if total < 16 { return Err(TooSmall); }
    if rootEntries % (SECTOR / DIR_ENTRY) != 0 { return Err(RootNotWhole); }
    if spc !in {1, 2, 4, 8, 16, 32, 64} { return Err(BadClusterSize); }
    var spf := SizeFat(total, spc, rootEntries * DIR_ENTRY / SECTOR);
    if spf.Err? { return Err(spf.error); }
    var g := Geometry(total, spc, rootEntries, spf.value);
    if ClusterCount(g) > MAX_CLUSTERS { return Err(TooManyClusters); }
    NeededIsEnough(ClusterCount(g), spf.value);
    return Ok(g);
  }

  /** A volume the constructor accepts and image() cannot write: 341 entries fill
      one sector but for the half byte their packing needs. */
  lemma AcceptedButNotWritable()
    ensures PlanOf(343, 16, 1) == Ok(Geometry(343, 1, 16, 1))
    ensures ClusterCount(Geometry(343, 1, 16, 1)) + 2 == 341 && !Fits(341, SECTOR)
  {
    assert SectorsNeeded(339) == 1;
  }

  const SIZES: seq<nat> := [1, 2, 4, 8, 16, 32, 64]

  /** tools/mkdisk.py's pick_cluster_size(): the smallest that works. */
  method PickClusterSize(total: nat, rootEntries: nat) returns (r: Option<nat>)
    ensures match r
      case Some(spc) => PlanOf(total, rootEntries, spc).Ok?
                        && forall s :: s in SIZES && s < spc ==> PlanOf(total, rootEntries, s).Err?
      case None => forall s :: s in SIZES ==> PlanOf(total, rootEntries, s).Err?
  {
    hide PlanOf;
    for i := 0 to |SIZES|
      invariant forall k :: 0 <= k < i ==> PlanOf(total, rootEntries, SIZES[k]).Err?
    {
      var plan := Plan(total, rootEntries, SIZES[i]);
      if plan.Ok? {
        assert forall k :: i <= k < |SIZES| ==> SIZES[k] >= SIZES[i];
        return Some(SIZES[i]);
      }
    }
    return None;
  }

  lemma NeededIsEnough(clusters: nat, spf: nat)
    requires SectorsNeeded(clusters) <= spf
    ensures (3 * (clusters + 2) + 1) / 2 <= spf * SECTOR
  {
    var bytes := ((clusters + 2) * 3 + 1) / 2;
    assert bytes <= (bytes + SECTOR - 1) / SECTOR * SECTOR;
  }

  /** Boot sector, FATs, root directory and every cluster lie apart and inside. */
  lemma RegionsAreApart(g: Geometry, c: nat, d: nat)
    requires GeometryOk(g) && 2 <= c < d < ClusterCount(g) + 2
    ensures SECTOR <= RESERVED * SECTOR < RootStart(g) * SECTOR <= DataStart(g) * SECTOR <= ClusterAt(g, c)
    ensures ClusterAt(g, c) + ClusterBytes(g) <= ClusterAt(g, d)
    ensures ClusterAt(g, d) + ClusterBytes(g) <= g.total * SECTOR
  {
    MulMono(c - 1, d - 2, g.spc);
    ClusterInside(g, d);
  }

  lemma MulMono(a: nat, b: nat, n: nat)
    requires a <= b
    ensures a * n <= b * n
  {
  }

  lemma LastClusterFits(room: nat, spc: nat, k: nat)
    requires spc > 0 && k < room / spc
    ensures k * spc + spc <= room
  {
    MulMono(k + 1, room / spc, spc);
    assert room == spc * (room / spc) + room % spc;
  }

  lemma ClusterInside(g: Geometry, c: nat)
    requires GeometryOk(g) && 2 <= c < ClusterCount(g) + 2
    ensures DataStart(g) * SECTOR <= ClusterAt(g, c)
    ensures ClusterAt(g, c) + ClusterBytes(g) <= g.total * SECTOR
  {
    LastClusterFits(g.total - DataStart(g), g.spc, c - 2);
  }

  // ---- files -----------------------------------------------------------------------

  /** `raw` is the eleven bytes of an 8.3 name. */
  datatype File = File(raw: Bytes, attrs: Octet, data: Bytes)

  predicate FileOk(f: File) { |f.raw| == 11 }

  /** Clusters a file of `n` bytes takes: at least one, even for none. */
  function Need(n: nat, cb: nat): (k: nat)
    requires cb > 0
    ensures k >= 1
  {
    var k := (n + cb - 1) / cb;
    if k < 1 then 1 else k
  }

  function Zeros(n: nat): (z: Bytes)
    ensures |z| == n
  {
    seq(n, _ => 0)
  }

  /** The `cb` bytes of a file from `lo` on, padded with zeros. */
  function ChunkFrom(data: Bytes, lo: nat, cb: nat): (c: Bytes)
    ensures |c| == cb
    ensures forall x :: 0 <= x < cb && lo + x < |data| ==> c[x] == data[lo + x]
  {
    if lo + cb <= |data| then data[lo..lo + cb]
    else if lo <= |data| then data[lo..] + Zeros(lo + cb - |data|)
    else Zeros(cb)
  }

  /** Cluster `i` of a file. */
  function Chunk(data: Bytes, i: nat, cb: nat): (c: Bytes)
    ensures |c| == cb
  {
    ChunkFrom(data, i * cb, cb)
  }

  /** The first cluster of file `j`, since each file takes the next ones free. */
  function FirstOf(files: seq<File>, cb: nat, j: nat): (c: nat)
    requires cb > 0 && j <= |files|
    ensures c >= 2
  {
    if j == 0 then 2 else FirstOf(files, cb, j - 1) + Need(|files[j - 1].data|, cb)
  }

  lemma {:induction false} FirstOfGrows(files: seq<File>, cb: nat, j: nat, k: nat)
    requires cb > 0 && j < k <= |files|
    ensures FirstOf(files, cb, j) + Need(|files[j].data|, cb) <= FirstOf(files, cb, k)
  {
    if j < k - 1 { FirstOfGrows(files, cb, j, k - 1); }
  }

  lemma {:induction false} FirstOfPrefix(files: seq<File>, more: seq<File>, cb: nat, j: nat)
    requires cb > 0 && j <= |files|
    ensures FirstOf(files + more, cb, j) == FirstOf(files, cb, j)
  {
    if j > 0 { FirstOfPrefix(files, more, cb, j - 1); }
  }

  datatype Dirent = Dirent(raw: Bytes, attrs: Octet, first: nat, size: nat)

  // ---- the volume under construction ---------------------------------------------------

  /** What the fields hold, for these files in this order. */
  datatype Vol = Vol(g: Geometry, fat: seq<Entry>, clusters: map<nat, Bytes>, dirents: seq<Dirent>, nextFree: nat)

  /** Cluster `i` of a file that starts at `first`: its bytes, and its link. */
  predicate Link(fat: seq<Entry>, clusters: map<nat, Bytes>, cb: nat, first: nat, data: Bytes, i: nat)
    requires cb > 0
  {
    var c := first + i;
    && c < |fat| && c in clusters
    && clusters[c] == Chunk(data, i, cb)
    && fat[c] == if i + 1 < Need(|data|, cb) then c + 1 else END
  }

  predicate Laid(fat: seq<Entry>, clusters: map<nat, Bytes>, cb: nat, first: nat, data: Bytes)
    requires cb > 0
  {
    forall i :: 0 <= i < Need(|data|, cb) ==> Link(fat, clusters, cb, first, data, i)
  }

  ghost predicate Represents(v: Vol, files: seq<File>) {
    && GeometryOk(v.g)
    && var cb := ClusterBytes(v.g);
    && |v.fat| == ClusterCount(v.g) + 2
    && |v.dirents| == |files| <= v.g.rootEntries
    && v.nextFree == FirstOf(files, cb, |files|) <= ClusterCount(v.g) + 2
    && (forall c :: c in v.clusters ==> 2 <= c < v.nextFree)
    && (forall c :: v.nextFree <= c < |v.fat| ==> v.fat[c] == 0)
    && (forall j :: 0 <= j < |files| ==> FileOk(files[j]))
    && (forall j :: 0 <= j < |files| ==>
          v.dirents[j] == Dirent(files[j].raw, files[j].attrs, FirstOf(files, cb, j), |files[j].data|))
    && (forall j :: 0 <= j < |files| ==> Laid(v.fat, v.clusters, cb, FirstOf(files, cb, j), files[j].data))
  }

  /** Room for one more file is exactly what add_file asks for. */
  predicate RoomFor(v: Vol, f: File)
    requires GeometryOk(v.g)
  {
    v.nextFree + Need(|f.data|, ClusterBytes(v.g)) <= ClusterCount(v.g) + 2
  }

  class Volume {
    const g: Geometry
    var fat: seq<Entry>
    var clusters: map<nat, Bytes>
    var dirents: seq<Dirent>
    var nextFree: nat
    ghost var files: seq<File>

    function View(): Vol
      reads this
    {
      Vol(g, fat, clusters, dirents, nextFree)
    }

    ghost predicate Valid()
      reads this
    {
      Represents(View(), files)
    }

    constructor (geometry: Geometry, media: Octet)
      requires GeometryOk(geometry)
      ensures Valid() && files == [] && g == geometry
    {
      g := geometry;
      fat := seq(ClusterCount(geometry) + 2, c => if c == 0 then 0xF00 + media else if c == 1 then END else 0);
      clusters, dirents, nextFree := map[], [], 2;
      files := [];
    }

    method FindName(raw: Bytes) returns (found: bool)
      requires Valid()
      ensures found <==> exists j :: 0 <= j < |files| && files[j].raw == raw
    {
      hide Laid, GeometryOk, FirstOf;
      found := false;
      var i := 0;
      while i < |dirents|
        invariant 0 <= i <= |dirents|
        invariant found <==> exists j :: 0 <= j < i && files[j].raw == raw
      {
        assert dirents[i].raw == files[i].raw;
        if dirents[i].raw == raw { found := true; }
        i := i + 1;
      }
    }

    /** A new file takes the next clusters in a row; or the exact reason not. */
    method AddFile(f: File) returns (r: Result<nat>)
      requires Valid() && FileOk(f)
      modifies this
      ensures Valid()
      ensures r.Err? ==> files == old(files) && View() == old(View())
      ensures r.Ok? ==> files == old(files) + [f]
      ensures var dup := exists j :: 0 <= j < |old(files)| && old(files)[j].raw == f.raw;
        r == if dup then Err(Exists)
             else if |old(files)| >= g.rootEntries then Err(RootFull)
             else if !RoomFor(old(View()), f) then Err(NoRoom)
             else Ok(old(nextFree))
    {
      hide Need, Chunk, GeometryOk, Laid, ClusterCount, FirstOf;
      CbPositive(g);
      var dup := FindName(f.raw);
      if dup { return Err(Exists); }
      if |dirents| >= g.rootEntries { return Err(RootFull); }
      var need := Need(|f.data|, ClusterBytes(g));
      if nextFree + need > ClusterCount(g) + 2 { return Err(NoRoom); }
      ghost var was := View();
      r := Ok(nextFree);
      LayChain(f, need, ClusterBytes(g));
      dirents := dirents + [Dirent(f.raw, f.attrs, nextFree, |f.data|)];
      nextFree := nextFree + need;
      Extends(was, View(), files, f);
      files := files + [f];
    }

    /** The loop over the new clusters. */
    method LayChain(f: File, need: nat, cb: nat)
      requires cb > 0 && need == Need(|f.data|, cb)
      requires nextFree + need <= |fat| <= MAX_CLUSTERS + 2
      modifies `fat, `clusters
      ensures |fat| == |old(fat)|
      ensures forall c :: 0 <= c < |fat| && !(nextFree <= c < nextFree + need) ==> fat[c] == old(fat)[c]
      ensures forall c :: c in old(clusters) && c < nextFree ==> c in clusters && clusters[c] == old(clusters)[c]
      ensures forall c :: c in clusters ==> c in old(clusters) || nextFree <= c < nextFree + need
      ensures Laid(fat, clusters, cb, nextFree, f.data)
    {
      hide Need, Chunk;
      var k := 0;
      while k < need
        invariant 0 <= k <= need && |fat| == |old(fat)|
        invariant forall c :: 0 <= c < |fat| && !(nextFree <= c < nextFree + k) ==> fat[c] == old(fat)[c]
        invariant forall c :: c in old(clusters) && c < nextFree ==> c in clusters && clusters[c] == old(clusters)[c]
        invariant forall c :: c in clusters ==> c in old(clusters) || nextFree <= c < nextFree + k
        invariant forall i :: 0 <= i < k ==> Link(fat, clusters, cb, nextFree, f.data, i)
      {
        var c := nextFree + k;
        ghost var was := View();
        clusters := clusters[c := Chunk(f.data, k, cb)];
        fat := fat[c := if k + 1 < need then c + 1 else END];
        forall i | 0 <= i < k
          ensures Link(fat, clusters, cb, nextFree, f.data, i)
        {
          assert Link(was.fat, was.clusters, cb, nextFree, f.data, i);
        }
        k := k + 1;
      }
    }
  }

  /** What was laid below the free clusters stays laid. */
  lemma StaysLaid(v: Vol, w: Vol, cb: nat, first: nat, data: Bytes)
    requires cb > 0 && Laid(v.fat, v.clusters, cb, first, data) && first + Need(|data|, cb) <= v.nextFree
    requires |w.fat| == |v.fat|
    requires forall c :: 0 <= c < v.nextFree && c < |w.fat| ==> w.fat[c] == v.fat[c]
    requires forall c :: c in v.clusters && c < v.nextFree ==> c in w.clusters && w.clusters[c] == v.clusters[c]
    ensures Laid(w.fat, w.clusters, cb, first, data)
  {
    hide Need, Chunk;
    forall i | 0 <= i < Need(|data|, cb)
      ensures Link(w.fat, w.clusters, cb, first, data, i)
    {
      assert Link(v.fat, v.clusters, cb, first, data, i);
    }
  }

  /** `w` is `v` with one more file laid in its free clusters. */
  ghost predicate Added(v: Vol, w: Vol, f: File)
    requires GeometryOk(v.g)
  {
    var cb := ClusterBytes(v.g);
    && w.g == v.g && |w.fat| == |v.fat|
    && w.nextFree == v.nextFree + Need(|f.data|, cb)
    && w.dirents == v.dirents + [Dirent(f.raw, f.attrs, v.nextFree, |f.data|)]
    && (forall c :: 0 <= c < |w.fat| && !(v.nextFree <= c < w.nextFree) ==> w.fat[c] == v.fat[c])
    && (forall c :: c in v.clusters && c < v.nextFree ==> c in w.clusters && w.clusters[c] == v.clusters[c])
    && (forall c :: c in w.clusters ==> c in v.clusters || v.nextFree <= c < w.nextFree)
    && Laid(w.fat, w.clusters, cb, v.nextFree, f.data)
  }

  lemma Extends(v: Vol, w: Vol, files: seq<File>, f: File)
    requires Represents(v, files) && FileOk(f) && RoomFor(v, f) && |files| < v.g.rootEntries
    requires Added(v, w, f)
    ensures Represents(w, files + [f])
  {
    hide Need, Chunk, GeometryOk, Laid, ClusterCount, FirstOf, FileOk, ClusterBytes;
    CbPositive(v.g);
    var cb, all := ClusterBytes(v.g), files + [f];
    FirstOfPrefix(files, [f], cb, |files|);
    forall j | 0 <= j <= |files|
      ensures FirstOf(all, cb, j) == FirstOf(files, cb, j)
    {
      FirstOfPrefix(files, [f], cb, j);
    }
    FirstOfNext(all, cb, |files|);
    forall j | 0 <= j < |all|
      ensures Laid(w.fat, w.clusters, cb, FirstOf(all, cb, j), all[j].data)
    {
      if j < |files| {
        FirstOfGrows(files, cb, j, |files|);
        StaysLaid(v, w, cb, FirstOf(files, cb, j), files[j].data);
      }
    }
    forall j | 0 <= j < |all|
      ensures w.dirents[j] == Dirent(all[j].raw, all[j].attrs, FirstOf(all, cb, j), |all[j].data|)
      ensures FileOk(all[j])
    {
      assert j < |files| ==> w.dirents[j] == v.dirents[j] && all[j] == files[j];
    }
  }

  lemma FirstOfNext(files: seq<File>, cb: nat, j: nat)
    requires cb > 0 && j < |files|
    ensures FirstOf(files, cb, j + 1) == FirstOf(files, cb, j) + Need(|files[j].data|, cb)
  {
  }

  lemma CbPositive(g: Geometry)
    requires GeometryOk(g)
    ensures ClusterBytes(g) > 0 && DataStart(g) <= g.total && g.spc > 0 && ClusterCount(g) <= MAX_CLUSTERS
  {
  }

  /** DISJOINT, TERMINATED CHAINS: every file's clusters are its own, each entry
      names the next, the last ends the chain, and all are inside the volume. */
  lemma ChainsAreApart(v: Vol, files: seq<File>, j: nat, i: nat, k: nat, m: nat)
    requires Represents(v, files) && j < |files| && k < |files| && (j != k || i != m)
    requires i < Need(|files[j].data|, ClusterBytes(v.g)) && m < Need(|files[k].data|, ClusterBytes(v.g))
    ensures var cb := ClusterBytes(v.g); var c := FirstOf(files, cb, j) + i;
      && c != FirstOf(files, cb, k) + m
      && 2 <= c < ClusterCount(v.g) + 2
      && v.fat[c] == if i + 1 == Need(|files[j].data|, cb) then END else c + 1
  {
    hide Need, Chunk, GeometryOk, FirstOf, ClusterCount;
    CbPositive(v.g);
    var cb := ClusterBytes(v.g);
    assert Laid(v.fat, v.clusters, cb, FirstOf(files, cb, j), files[j].data);
    assert Link(v.fat, v.clusters, cb, FirstOf(files, cb, j), files[j].data, i);
    FirstOfGrows(files, cb, j, |files|);
    if j < k { FirstOfGrows(files, cb, j, k); }
    if k < j { FirstOfGrows(files, cb, k, j); }
  }
}
