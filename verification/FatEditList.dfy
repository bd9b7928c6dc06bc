/** The directory listing after tools/addfile.py: one name replaced or added, all
    else in its place. */
module FatEditList {
  import opened FatTable
  import opened FatVolume
  import opened FatImage
  import opened FatLinks
  import opened FatEdit
  import opened FatWriter
  import opened FatEditRead

  type Names = Option<seq<Named>>

  function Join(a: Names, b: Names): Names {
    if a.None? || b.None? then None else Some(a.value + b.value)
  }

  lemma JoinAssoc(a: Names, b: Names, c: Names)
    ensures Join(Join(a, b), c) == Join(a, Join(b, c))
    ensures Join(Some([]), a) == a
  {
    if a.Some? && b.Some? && c.Some? {
      assert (a.value + b.value) + c.value == a.value + (b.value + c.value);
    }
    if a.Some? { assert [] + a.value == a.value; }
  }

  lemma EntryInImage(s: Bytes, h: Header, i: nat)
    requires RootInImage(s, h) && i < h.rootEntries
    ensures EntryAt(h, i) + DIR_ENTRY <= |s|
  {
  }

  /** What one directory entry adds to a listing. */
  function ShownAt(s: Bytes, h: Header, i: nat): Names
    requires EntryAt(h, i) + DIR_ENTRY <= |s|
  {
    var e := EntryAt(h, i);
    var d := Decode(s[e..e + DIR_ENTRY]);
    if s[e] == 0xE5 || Hidden(d) then Some([])
    else match ReadChain(s, h, d.first, [], d.size)
         case None => None
         case Some(blob) => Some([Shown(d, blob)])
  }

  function Before(s: Bytes, h: Header, i: nat, k: nat): Names
    requires RootInImage(s, h) && k <= h.rootEntries
    decreases k - i
  {
    if i >= k then Some([]) else Join(ShownAt(s, h, i), Before(s, h, i + 1, k))
  }

  lemma OneEntry(s: Bytes, h: Header, i: nat)
    requires RootInImage(s, h) && i < h.rootEntries && s[EntryAt(h, i)] != 0
    ensures ReadEntries(s, h, i) == Join(ShownAt(s, h, i), ReadEntries(s, h, i + 1))
  {
    hide ReadEntries, ReadChain, Decode, Hidden, HRoot, Shown;
    EntryThen(s, h, i);
    JoinAssoc(ReadEntries(s, h, i + 1), Some([]), Some([]));
  }

  lemma {:induction false} Split(s: Bytes, h: Header, i: nat, k: nat)
    requires RootInImage(s, h) && i <= k <= h.rootEntries
    requires forall j :: i <= j < k ==> s[EntryAt(h, j)] != 0
    ensures ReadEntries(s, h, i) == Join(Before(s, h, i, k), ReadEntries(s, h, k))
    decreases k - i
  {
    hide ReadEntries, ShownAt, EntryAt, HRoot, Join;
    JoinAssoc(ReadEntries(s, h, k), Some([]), Some([]));
    if i < k {
      EntryInImage(s, h, i);
      OneEntry(s, h, i);
      Split(s, h, i + 1, k);
      JoinAssoc(ShownAt(s, h, i), Before(s, h, i + 1, k), ReadEntries(s, h, k));
    }
  }

  /** Entry `i` is one a reader shows, and gets to once entry `at` is in use. */
  predicate Visible(s: Bytes, h: Header, at: nat, i: nat)
    requires RootInImage(s, h) && i < h.rootEntries
  {
    && (forall j :: 0 <= j <= i && j != at ==> s[EntryAt(h, j)] != 0)
    && s[EntryAt(h, i)] != 0xE5
    && s[EntryAt(h, i) + 11] / 8 % 2 == 0
  }

  lemma EntryFields(s: Bytes, h: Header, i: nat)
    requires EntryAt(h, i) + DIR_ENTRY <= |s|
    ensures var d := Decode(s[EntryAt(h, i)..EntryAt(h, i) + DIR_ENTRY]);
      d.first == FirstAt(s, h, i) && d.attrs == s[EntryAt(h, i) + 11] && d.raw == NameAt(s, h, i)
  {
    hide EntryAt, Le16, Le32Value;
    var e := s[EntryAt(h, i)..EntryAt(h, i) + DIR_ENTRY];
    assert e[11] == s[EntryAt(h, i) + 11] && e[26] == s[EntryAt(h, i) + 26] && e[27] == s[EntryAt(h, i) + 27];
    assert e[..11] == NameAt(s, h, i);
  }

  /** An entry with the same bytes, whose file reads the same, is shown the same. */
  lemma SameShown(s: Bytes, was: Bytes, h: Header, at: nat, i: nat)
    requires RootInImage(was, h) && i < h.rootEntries
    requires Same(s, was, EntryAt(h, i), EntryAt(h, i) + DIR_ENTRY)
    requires forall j :: 0 <= j <= i && j != at ==> was[EntryAt(h, j)] != 0
    requires Visible(was, h, at, i) ==> forall size ::
               ReadChain(s, h, FirstAt(was, h, i), [], size) == ReadChain(was, h, FirstAt(was, h, i), [], size)
    ensures ShownAt(s, h, i) == ShownAt(was, h, i) && s[EntryAt(h, i)] == was[EntryAt(h, i)]
  {
    hide ReadChain, Decode, Shown, HRoot, EntryAt, FirstAt;
    EntryFields(was, h, i);
    var e := EntryAt(h, i);
    assert s[e..e + DIR_ENTRY] == was[e..e + DIR_ENTRY];
  }

  // ---- an edited image -----------------------------------------------------------------

  /** Everything the listing of an edited image rests on. */
  ghost predicate Edit(s: Bytes, was: Bytes, h: Header, fat: seq<Entry>, t: Bytes, c: nat, at: nat,
                       ent: Bytes, body: Bytes)
  {
    && Disk(was, h, fat, t) && RootInImage(was, h) && InRange(fat) && LinkOk(c, |fat|) && |ent| == 11
    && |fat| <= 0xFFF && ClusterSize(h) > 0 && Edited(s, was, h, fat, c, at, ent, body)
  }

  /** Every file but the one edited is sound and apart from the chain freed: also
      those behind the end mark that an entry in its place brings back. */
  ghost predicate OthersApart(was: Bytes, h: Header, fat: seq<Entry>, c: nat, at: nat)
    requires RootInImage(was, h) && InRange(fat) && LinkOk(c, |fat|)
  {
    forall i :: 0 <= i < h.rootEntries && i != at && Visible(was, h, at, i) ==> Apart(fat, c, FirstAt(was, h, i))
  }

  lemma OtherShown(s: Bytes, was: Bytes, h: Header, fat: seq<Entry>, t: Bytes, c: nat, at: nat,
                   ent: Bytes, body: Bytes, i: nat)
    requires Edit(s, was, h, fat, t, c, at, ent, body) && OthersApart(was, h, fat, c, at)
    requires i < h.rootEntries && i != at && forall j :: 0 <= j <= i && j != at ==> was[EntryAt(h, j)] != 0
    ensures |s| == |was| && ShownAt(s, h, i) == ShownAt(was, h, i) && s[EntryAt(h, i)] == was[EntryAt(h, i)]
  {
    hide ReadChain, Disk, Freed, Frees, LinkUp, Taken, Need, HRoot, HCluster, ClusterSize, EntryAt, FirstAt, ShownAt;
    hide Visible, Slice, CopyAt, NewEntry, Apart;
    assert Same(s, was, EntryAt(h, i), EntryAt(h, i) + DIR_ENTRY);
    if Visible(was, h, at, i) {
      forall size
        ensures ReadChain(s, h, FirstAt(was, h, i), [], size) == ReadChain(was, h, FirstAt(was, h, i), [], size)
      {
        OtherFileReads(s, was, h, fat, t, c, at, ent, body, FirstAt(was, h, i), size);
      }
    }
    SameShown(s, was, h, at, i);
  }

  lemma {:induction false} BeforeSame(s: Bytes, was: Bytes, h: Header, fat: seq<Entry>, t: Bytes, c: nat, at: nat,
                                      ent: Bytes, body: Bytes, i: nat, k: nat)
    requires Edit(s, was, h, fat, t, c, at, ent, body) && OthersApart(was, h, fat, c, at)
    requires i <= k <= at < h.rootEntries && forall j :: 0 <= j < k ==> was[EntryAt(h, j)] != 0
    ensures RootInImage(s, h) && Before(s, h, i, k) == Before(was, h, i, k)
    ensures forall j :: i <= j < k ==> s[EntryAt(h, j)] != 0
    decreases k - i
  {
    hide Edit, OthersApart, ShownAt, EntryAt, Join, HRoot;
    EditSizes(s, was, h, fat, t, c, at, ent, body);
    if i < k {
      OtherShown(s, was, h, fat, t, c, at, ent, body, i);
      BeforeSame(s, was, h, fat, t, c, at, ent, body, i + 1, k);
    }
  }

  lemma EditSizes(s: Bytes, was: Bytes, h: Header, fat: seq<Entry>, t: Bytes, c: nat, at: nat, ent: Bytes, body: Bytes)
    requires Edit(s, was, h, fat, t, c, at, ent, body)
    ensures |s| == |was| && RootInImage(was, h) && RootInImage(s, h) && at < h.rootEntries
    ensures InRange(fat) && LinkOk(c, |fat|) && |ent| == 11
  {
    hide Freed, Frees, LinkUp, Taken, Need, Disk, ClusterSize, NewEntry, CopyAt, EntryAt, HRoot, Slice;
  }

  lemma {:induction false} AfterSame(s: Bytes, was: Bytes, h: Header, fat: seq<Entry>, t: Bytes, c: nat, at: nat,
                                     ent: Bytes, body: Bytes, i: nat)
    requires Edit(s, was, h, fat, t, c, at, ent, body) && OthersApart(was, h, fat, c, at)
    requires at < i <= h.rootEntries && forall j :: 0 <= j < i && j != at ==> was[EntryAt(h, j)] != 0
    ensures ReadEntries(s, h, i) == ReadEntries(was, h, i)
    decreases h.rootEntries - i
  {
    hide Edit, OthersApart, ShownAt, EntryAt, Join, HRoot, ReadEntries;
    EditSizes(s, was, h, fat, t, c, at, ent, body);
    if i < h.rootEntries {
      EntrySameByte(s, was, h, fat, t, c, at, ent, body, i);
      if was[EntryAt(h, i)] == 0 {
        EndMark(s, h, i);
        EndMark(was, h, i);
      } else {
        OtherShown(s, was, h, fat, t, c, at, ent, body, i);
        OneEntry(s, h, i);
        OneEntry(was, h, i);
        AfterSame(s, was, h, fat, t, c, at, ent, body, i + 1);
      }
    } else {
      NoEntries(s, h, i);
      NoEntries(was, h, i);
    }
  }

  lemma EntrySameByte(s: Bytes, was: Bytes, h: Header, fat: seq<Entry>, t: Bytes, c: nat, at: nat,
                      ent: Bytes, body: Bytes, i: nat)
    requires Edit(s, was, h, fat, t, c, at, ent, body) && i < h.rootEntries && i != at
    ensures |s| == |was| && EntryAt(h, i) + DIR_ENTRY <= |s| && s[EntryAt(h, i)] == was[EntryAt(h, i)]
  {
    hide Freed, Frees, LinkUp, Taken, Need, Disk, ClusterSize, NewEntry, CopyAt, Slice;
    EditSizes(s, was, h, fat, t, c, at, ent, body);
    assert Same(s, was, EntryAt(h, i), EntryAt(h, i) + DIR_ENTRY);
  }

  lemma EndMark(s: Bytes, h: Header, i: nat)
    requires RootInImage(s, h) && i < h.rootEntries && s[EntryAt(h, i)] == 0
    ensures ReadEntries(s, h, i) == Some([])
  {
  }

  lemma NoEntries(s: Bytes, h: Header, i: nat)
    requires i >= h.rootEntries
    ensures ReadEntries(s, h, i) == Some([])
  {
  }

  /** What a reader makes of the new file. */
  function NewContents(s: Bytes, h: Header, fat: seq<Entry>, c: nat, body: Bytes): Bytes
    requires InRange(fat) && LinkOk(c, |fat|) && |fat| <= 0xFFF && ClusterSize(h) > 0
    requires Need(|body|, ClusterSize(h)) <= |Frees(Freed(fat, c), |fat|)|
  {
    var blob := ReadChain(s, h, Taken(Freed(fat, c), Need(|body|, ClusterSize(h)))[0], [], |body|);
    if blob.None? then [] else Cut(blob.value, |body|)
  }

  /** The last, and so the highest, of the clusters taken. */
  function LastTaken(h: Header, fat: seq<Entry>, c: nat, body: Bytes): nat
    requires InRange(fat) && LinkOk(c, |fat|) && |fat| <= 0xFFF && ClusterSize(h) > 0
    requires Need(|body|, ClusterSize(h)) <= |Frees(Freed(fat, c), |fat|)|
  {
    var use := Taken(Freed(fat, c), Need(|body|, ClusterSize(h)));
    use[|use| - 1]
  }

  function NewNamed(ent: Bytes, data: Bytes): Named
    requires |ent| == 11
  {
    Named(RStrip(ent[..8]), RStrip(ent[8..]), data)
  }

  lemma NewShown(s: Bytes, was: Bytes, h: Header, fat: seq<Entry>, t: Bytes, c: nat, at: nat, ent: Bytes, body: Bytes)
    requires Edit(s, was, h, fat, t, c, at, ent, body) && ent[0] != 0 && ent[0] != 0xE5
    ensures RootInImage(s, h) && at < h.rootEntries && s[EntryAt(h, at)] == ent[0] != 0
    ensures Need(|body|, ClusterSize(h)) <= |Frees(Freed(fat, c), |fat|)|
    ensures ShownAt(s, h, at) == Some([NewNamed(ent, NewContents(s, h, fat, c, body))])
    ensures NewContents(s, h, fat, c, body) == body <==> |body| == 0 || LastTaken(h, fat, c, body) < READER_END
  {
    hide Freed, Frees, LinkUp, Taken, Need, Disk, ClusterSize, NewEntry, CopyAt;
    hide ReadChain, Decode, RStrip, HRoot, EntryAt;
    hide Written, OtherEntries;
    EditSizes(s, was, h, fat, t, c, at, ent, body);
    NewFileReadsExactly(s, was, h, fat, c, at, ent, body);
    var use := Taken(Freed(fat, c), Need(|body|, ClusterSize(h)));
    NewEntryReads(ent, use[0], |body|);
    var e := EntryAt(h, at);
    assert s[e..e + DIR_ENTRY] == NewEntry(ent, use[0], |body|);
    assert s[e..e + DIR_ENTRY][0] == s[e];
  }

  /** No entry before `at` ends the directory. */
  predicate NoEndBefore(s: Bytes, h: Header, at: nat)
    requires RootInImage(s, h) && at < h.rootEntries
  {
    forall j :: 0 <= j < at ==> s[EntryAt(h, j)] != 0
  }

  /** THE LISTING AFTER AN EDIT: what came before the slot, the new file as a reader
      gets it, and all that stands behind the slot up to the next end mark - so that
      stale entries behind the mark come back when the slot was the mark itself. */
  lemma EditedListing(s: Bytes, was: Bytes, h: Header, fat: seq<Entry>, t: Bytes, c: nat, at: nat,
                      ent: Bytes, body: Bytes)
    requires Edit(s, was, h, fat, t, c, at, ent, body) && OthersApart(was, h, fat, c, at)
    requires ent[0] != 0 && ent[0] != 0xE5 && at < h.rootEntries && NoEndBefore(was, h, at)
    ensures Need(|body|, ClusterSize(h)) <= |Frees(Freed(fat, c), |fat|)|
    ensures ReadEntries(s, h, 0)
         == Join(Before(was, h, 0, at),
                 Join(Some([NewNamed(ent, NewContents(s, h, fat, c, body))]), ReadEntries(was, h, at + 1)))
    ensures NewContents(s, h, fat, c, body) == body <==> |body| == 0 || LastTaken(h, fat, c, body) < READER_END
    ensures ReadEntries(was, h, 0) == Join(Before(was, h, 0, at), ReadEntries(was, h, at))
  {
    hide Edit, OthersApart, ShownAt, EntryAt, Join, HRoot, ReadEntries, NewContents, NewNamed, Before;
    EditSizes(s, was, h, fat, t, c, at, ent, body);
    BeforeSame(s, was, h, fat, t, c, at, ent, body, 0, at);
    Split(s, h, 0, at);
    Split(was, h, 0, at);
    NewShown(s, was, h, fat, t, c, at, ent, body);
    OneEntry(s, h, at);
    AfterSame(s, was, h, fat, t, c, at, ent, body, at + 1);
  }

  /** A NAME FOUND BEHIND THE END MARK is replaced there, and no reader sees it: the
      listing is what it was. */
  lemma EditedUnseen(s: Bytes, was: Bytes, h: Header, fat: seq<Entry>, t: Bytes, c: nat, at: nat,
                     ent: Bytes, body: Bytes)
    requires Edit(s, was, h, fat, t, c, at, ent, body) && OthersApart(was, h, fat, c, at)
    requires at < h.rootEntries && !NoEndBefore(was, h, at)
    ensures ReadEntries(s, h, 0) == ReadEntries(was, h, 0)
  {
    hide Edit, OthersApart, ShownAt, EntryAt, Join, HRoot, ReadEntries, Before;
    EditSizes(s, was, h, fat, t, c, at, ent, body);
    var k := FirstEnd(was, h, at);
    BeforeSame(s, was, h, fat, t, c, at, ent, body, 0, k);
    Split(s, h, 0, k);
    Split(was, h, 0, k);
    EntrySameByte(s, was, h, fat, t, c, at, ent, body, k);
    EndMark(s, h, k);
    EndMark(was, h, k);
  }

  lemma FirstEnd(s: Bytes, h: Header, at: nat) returns (k: nat)
    requires RootInImage(s, h) && at < h.rootEntries && !NoEndBefore(s, h, at)
    ensures k < at && NoEndBefore(s, h, k) && s[EntryAt(h, k)] == 0
  {
    hide HRoot;
    k := 0;
    while s[EntryAt(h, k)] != 0
      invariant k < at && NoEndBefore(s, h, k)
      decreases at - k
    {
      k := k + 1;
    }
  }

  /** When nothing is listed from an entry on: all up to the end mark are deleted or
      volume labels. */
  predicate AllHidden(s: Bytes, h: Header, i: nat)
    requires RootInImage(s, h)
  {
    forall k :: i <= k < h.rootEntries && (forall j :: i <= j <= k ==> s[EntryAt(h, j)] != 0) ==>
      s[EntryAt(h, k)] == 0xE5 || s[EntryAt(h, k) + 11] / 8 % 2 == 1
  }

  /** An edit into the end mark so leaves the new file the last one listed if and only
      if nothing shown stands behind the mark. */
  lemma {:induction false} ListsNothingExactly(s: Bytes, h: Header, i: nat)
    requires RootInImage(s, h) && i <= h.rootEntries
    ensures ReadEntries(s, h, i) == Some([]) <==> AllHidden(s, h, i)
    decreases h.rootEntries - i
  {
    hide ReadEntries, EntryAt, HRoot;
    if i == h.rootEntries {
      NoEntries(s, h, i);
    } else {
      EntryInImage(s, h, i);
      if s[EntryAt(h, i)] == 0 {
        EndMark(s, h, i);
      } else {
        OneEntry(s, h, i);
        OneShown(s, h, i);
        ListsNothingExactly(s, h, i + 1);
        HiddenSplit(s, h, i);
      }
    }
  }

  lemma OneShown(s: Bytes, h: Header, i: nat)
    requires RootInImage(s, h) && i < h.rootEntries
    ensures EntryAt(h, i) + DIR_ENTRY <= |s|
    ensures ShownAt(s, h, i) == Some([]) <==> s[EntryAt(h, i)] == 0xE5 || s[EntryAt(h, i) + 11] / 8 % 2 == 1
    ensures ShownAt(s, h, i).Some? ==> |ShownAt(s, h, i).value| <= 1
  {
    hide ReadChain, Decode, Shown, EntryAt, FirstAt, HRoot;
    EntryInImage(s, h, i);
    EntryFields(s, h, i);
  }

  lemma HiddenSplit(s: Bytes, h: Header, i: nat)
    requires RootInImage(s, h) && i < h.rootEntries && s[EntryAt(h, i)] != 0
    ensures AllHidden(s, h, i) <==>
            (s[EntryAt(h, i)] == 0xE5 || s[EntryAt(h, i) + 11] / 8 % 2 == 1) && AllHidden(s, h, i + 1)
  {
    hide EntryAt, HRoot;
    forall k | i <= k < h.rootEntries
      ensures EntryAt(h, k) + DIR_ENTRY <= |s|
    {
      EntryInImage(s, h, k);
    }
    if AllHidden(s, h, i) {
      assert forall j :: i <= j <= i ==> s[EntryAt(h, j)] != 0;
      forall k | i + 1 <= k < h.rootEntries && forall j :: i + 1 <= j <= k ==> s[EntryAt(h, j)] != 0
        ensures s[EntryAt(h, k)] == 0xE5 || s[EntryAt(h, k) + 11] / 8 % 2 == 1
      {
        assert forall j :: i <= j <= k ==> s[EntryAt(h, j)] != 0;
      }
    }
  }
}
