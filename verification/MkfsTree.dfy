/** The image mkfs builds is a file system whose link counts are right. */
module MkfsTree {
  import opened Blocks
  import opened Names
  import opened Dir
  import opened FsLayout
  import opened FsState
  import opened FsWrite
  import opened FsFiles
  import opened FsTrunc
  import opened MkfsMain
  import opened LinkOps
  import Links

  /** No two entries of the root directory have the same name. */
  predicate NamesDiffer(files: seq<File>) {
    && (forall j: nat :: j < |files| ==> IsString(files[j].name))
    && forall i: nat, j: nat {:trigger RootName(files, i), RootName(files, j)} :: i < j < |files| + 2 ==>
         Key(RootName(files, i)) != Key(RootName(files, j))
  }

  /** The map of the root directory. */
  lemma RootEnts(files: seq<File>, pad: nat, t: seq<Byte>)
    requires |files| + 2 <= 0x1_0000 && pad % DIRENT == 0 && NamesDiffer(files)
    ensures var c := RootBytes(files, |files|) + Zeros(pad);
            && (t in Ents(c) <==> exists k: nat :: k < |files| + 2 && t == Key(RootName(files, k)))
            && forall k: nat :: k < |files| + 2 && t == Key(RootName(files, k)) ==>
                 t in Ents(c) && Ents(c)[t] == if k < 2 then ROOTINO else k
  {
    hide RootBytes, Zeros, Inum, NameAt, Key, RootName, Find, Lookup;
    var c := RootBytes(files, |files|) + Zeros(pad);
    InEnts(c, t);
    forall k: nat | k < |files| + 2 && t == Key(RootName(files, k))
      ensures t in Ents(c) && Ents(c)[t] == if k < 2 then ROOTINO else k
    {
      RootIsDir(files, pad, k);
      KeyTwice(RootName(files, k));
      InEnts(c, Key(RootName(files, k)));
    }
    if t in Ents(c) {
      var j: nat :| j < Count(c) && Inum(c, j) != 0 && NameAt(c, j) == t;
      RootAt(files, pad, j);
      assert t == Key(RootName(files, j));
    }
  }

  lemma KeyTwice(t: seq<Byte>)
    ensures Key(Key(t)) == Key(t) && forall c: seq<Byte> :: Lookup(c, Key(t)) == Lookup(c, t)
  {
    hide Find;
  }

  lemma BuiltFile(st: State, files: seq<File>, j: nat)
    requires AllShaped(st.inodes) && FilesBuilt(st, files) && j < |files|
    ensures st.inodes[2 + j].kind == I_FILE && st.inodes[2 + j].nlink == 1
  {
    assert FileBuilt(st, 2 + j, files[j].data);
  }

  /** The tree of the finished image: the root, one inode for each file, the rest free. */
  lemma ImageNode(st: State, freeblock: nat, files: seq<File>, i: nat)
    requires |files| + 2 <= 0x1_0000 && Built(st, freeblock, files) && DirsGood(st) && i < |st.inodes|
    ensures var x := TreeOf(st);
            && (i == ROOTINO ==> x[i].kind == I_DIR && x[i].nlink == 1)
            && (2 <= i < |files| + 2 ==> x[i] == Links.Node(I_FILE, 1, map[]))
            && (i == 0 || i >= |files| + 2 ==> x[i] == Links.Node(0, 0, map[]))
  {
    hide MapBuilt, RootBytes, Zeros, Ents, ByteAt, NoHoles, DirGood;
    if 2 <= i < |files| + 2 {
      BuiltFile(st, files, i - 2);
    }
  }

  lemma ImageDir(st: State, freeblock: nat, files: seq<File>, i: nat)
    requires |files| + 2 <= 0x1_0000 && Built(st, freeblock, files) && FsOk(LAYOUT, st) && NamesDiffer(files)
    requires i < |st.inodes|
    ensures st.inodes[i].size <= LIMIT && DirGood(st.inodes[i], FileAt(st, i))
    ensures (st.inodes[i].kind == 0 ==> st.inodes[i] == NewInode(0))
  {
    hide MapBuilt, Recorded, Backed, MapOk, Synced, RootBytes, Zeros, ByteAt, IsDir, DotsFirst;
    assert NoHoles(st.disk, st.inodes[i]);
    if i == ROOTINO {
      var len := DIRENT * (|files| + 2);
      PadWhole(|files| + 2);
      RootIsDir(files, RoundedSize(len) - len, 0);
      RootDots(files, RoundedSize(len) - len);
    } else if 2 <= i < |files| + 2 {
      BuiltFile(st, files, i - 2);
    }
  }

  lemma ImageDirs(st: State, freeblock: nat, files: seq<File>)
    requires |files| + 2 <= 0x1_0000 && Built(st, freeblock, files) && FsOk(LAYOUT, st) && NamesDiffer(files)
    ensures DirsGood(st) && Tidy(st.inodes)
  {
    hide MapBuilt, Sound, Synced, FilesBuilt, RootBuilt, NamesDiffer, FileAt, DirGood;
    ShapesOf(st, freeblock);
    forall i: nat | i < |st.inodes|
      ensures st.inodes[i].size <= LIMIT && DirGood(st.inodes[i], FileAt(st, i))
      ensures (st.inodes[i].kind == 0 ==> st.inodes[i] == NewInode(0))
    {
      ImageDir(st, freeblock, files, i);
    }
  }

  lemma ShapesOf(st: State, freeblock: nat)
    requires MapBuilt(st, freeblock)
    ensures AllShaped(st.inodes)
  {
  }

  lemma PadWhole(m: nat)
    ensures RoundedSize(DIRENT * m) >= DIRENT * m && (RoundedSize(DIRENT * m) - DIRENT * m) % DIRENT == 0
  {
    var q := DIRENT * m / BSIZE;
    assert RoundedSize(DIRENT * m) - DIRENT * m == DIRENT * (64 * (q + 1) - m);
  }

  lemma RootDots(files: seq<File>, pad: nat)
    requires |files| + 2 <= 0x1_0000 && forall j: nat :: j < |files| ==> IsString(files[j].name)
    ensures DotsFirst(RootBytes(files, |files|) + Zeros(pad))
  {
    hide RootBytes, Zeros, Inum, NameAt;
    var c := RootBytes(files, |files|) + Zeros(pad);
    if Count(c) > 0 {
      RootAt(files, pad, 0);
    }
    if Count(c) > 1 {
      RootAt(files, pad, 1);
    }
  }

  /** Which entries of the image lead where. */
  lemma ImageLeads(st: State, freeblock: nat, files: seq<File>, r: Links.Ref, i: nat)
    requires |files| + 2 <= 0x1_0000 && Built(st, freeblock, files) && DirsGood(st) && NamesDiffer(files)
    ensures Links.Leads(TreeOf(st), r, i) <==>
              r.dir == ROOTINO && exists k: nat ::
                  k < |files| + 2 && r.name == Key(RootName(files, k)) && i == if k < 2 then ROOTINO else k
  {
    hide MapBuilt, FilesBuilt, RootBytes, Zeros, Ents, ByteAt, NoHoles, DirGood, Key, RootName;
    var x := TreeOf(st);
    if r.dir < |x| {
      ImageNode(st, freeblock, files, r.dir);
    }
    assert ROOTINO < |st.inodes|;
    ImageNode(st, freeblock, files, ROOTINO);
    PadWhole(|files| + 2);
    var len := DIRENT * (|files| + 2);
    RootEnts(files, RoundedSize(len) - len, r.name);
    assert x[ROOTINO].ents == Ents(FileAt(st, ROOTINO));
  }

  /** An entry of the image is one of the root's, and its name tells which. */
  ghost predicate RootOnly(x: Links.Tree, files: seq<File>) {
    && forall r: Links.Ref, i: nat {:trigger Links.Leads(x, r, i)} :: Links.Leads(x, r, i) <==>
         r.dir == ROOTINO && exists k: nat ::
             k < |files| + 2 && r.name == Key(RootName(files, k)) && i == if k < 2 then ROOTINO else k
  }

  /** The kinds and counts of the image. */
  predicate RootAndFiles(x: Links.Tree, files: seq<File>) {
    && |files| + 2 <= |x| && x[ROOTINO].kind == I_DIR && x[ROOTINO].nlink == 1
    && (forall i: nat :: 2 <= i < |files| + 2 ==> x[i].kind == I_FILE && x[i].nlink == 1)
    && (forall i: nat :: i < |x| && (i == 0 || i >= |files| + 2) ==> x[i].kind == 0 && x[i].nlink == 0)
    && (forall i: nat :: i < |x| && i != ROOTINO ==> x[i].ents == map[])
  }

  lemma DotKeys(files: seq<File>)
    ensures Key(RootName(files, 0)) == Links.DOT && Key(RootName(files, 1)) == Links.DOTDOT
  {
  }

  lemma ImageShape(x: Links.Tree, files: seq<File>)
    requires RootOnly(x, files) && RootAndFiles(x, files) && NamesDiffer(files)
    ensures Links.TargetsOk(x) && Links.DotsOk(x) && Links.OnceOk(x)
  {
    DotKeys(files);
    hide Key, RootName;
    assert forall d: nat {:trigger Links.LinkedDir(x, d)} :: Links.LinkedDir(x, d) <==> d == ROOTINO;
    assert Links.Leads(x, Links.Ref(ROOTINO, Links.DOTDOT), ROOTINO);
    assert Links.Leads(x, Links.Ref(ROOTINO, Links.DOT), ROOTINO);
    hide Links.Leads, Links.LinkedDir;
  }

  lemma ImageRange(x: Links.Tree, files: seq<File>)
    requires RootOnly(x, files) && RootAndFiles(x, files)
    ensures Links.RangeOk(x)
  {
    hide Key, RootName;
    forall d: nat, n | d < |x| && n in x[d].ents ensures x[d].ents[n] < |x| {
      assert Links.Leads(x, Links.Ref(d, n), x[d].ents[n]);
    }
  }

  lemma ImageBare(x: Links.Tree, files: seq<File>)
    requires RootAndFiles(x, files)
    ensures Links.BareOk(x)
  {
    hide Links.IsEmpty;
  }

  lemma ImageInv(x: Links.Tree, files: seq<File>)
    requires RootOnly(x, files) && RootAndFiles(x, files) && NamesDiffer(files)
    ensures Links.Inv(x)
  {
    hide RootOnly, RootAndFiles, NamesDiffer, Links.TargetsOk, Links.DotsOk, Links.OnceOk, Links.RangeOk, Links.BareOk,
         Links.Refs;
    ImageShape(x, files);
    ImageRange(x, files);
    ImageBare(x, files);
    forall i: nat | 0 < i < |x| ensures x[i].nlink == |Links.Refs(x, i)| {
      ImageCount(x, files, i);
    }
  }

  lemma ImageCount(x: Links.Tree, files: seq<File>, i: nat)
    requires RootOnly(x, files) && RootAndFiles(x, files) && NamesDiffer(files) && 0 < i < |x|
    ensures x[i].nlink == |Links.Refs(x, i)|
  {
    DotKeys(files);
    hide Key, RootName, Links.Leads;
    var k := if i == ROOTINO then 1 else i;
    if i < |files| + 2 {
      var r := Links.Ref(ROOTINO, Key(RootName(files, k)));
      assert Links.Leads(x, r, i);
      forall q: Links.Ref ensures q in Links.Refs(x, i) <==> q == r {
        Links.InRefs(x, i, q);
      }
      assert Links.Refs(x, i) == {r};
    } else {
      forall q: Links.Ref ensures q !in Links.Refs(x, i) {
        Links.InRefs(x, i, q);
      }
      assert Links.Refs(x, i) == {};
    }
  }

  /**
   mkfs hands the kernel a sane file system exactly when no names clash and the root does not end at a block
   boundary.
   */
  lemma MkfsSane(st: State, freeblock: nat, files: seq<File>)
    requires |files| + 2 <= 0x1_0000 && Built(st, freeblock, files)
    requires forall j: nat :: j < |files| ==> IsString(files[j].name)
    ensures Sane(LAYOUT, st) <==> NamesDiffer(files) && (|files| + 2) % 64 != 0
  {
    hide Built, FsOk, NamesDiffer, Tidy, DirsGood, Links.Inv;
    if NamesDiffer(files) && (|files| + 2) % 64 != 0 {
      SaneImage(st, freeblock, files);
    } else {
      MkfsEstablishes(st, freeblock, files);
      if DirsGood(st) {
        NoClash(st, freeblock, files);
      }
    }
  }

  /** A root directory that is a map has no two entries under one name. */
  lemma NoClash(st: State, freeblock: nat, files: seq<File>)
    requires |files| + 2 <= 0x1_0000 && Built(st, freeblock, files) && DirsGood(st)
    requires forall j: nat :: j < |files| ==> IsString(files[j].name)
    ensures NamesDiffer(files)
  {
    hide MapBuilt, FilesBuilt, RootBytes, Zeros, ByteAt, NoHoles, DotsFirst, Inum, NameAt, Key, RootName;
    assert DirGood(st.inodes[ROOTINO], FileAt(st, ROOTINO));
    PadWhole(|files| + 2);
    var len := DIRENT * (|files| + 2);
    var pad := RoundedSize(len) - len;
    forall i: nat, j: nat | i < j < |files| + 2 ensures Key(RootName(files, i)) != Key(RootName(files, j)) {
      RootAt(files, pad, i);
      RootAt(files, pad, j);
    }
  }

  lemma SaneImage(st: State, freeblock: nat, files: seq<File>)
    requires |files| + 2 <= 0x1_0000 && Built(st, freeblock, files) && NamesDiffer(files) && (|files| + 2) % 64 != 0
    ensures Sane(LAYOUT, st)
  {
    hide Built, FsOk, NamesDiffer, Tidy, DirsGood, Links.Inv;
    MkfsEstablishes(st, freeblock, files);
    ImageDirs(st, freeblock, files);
    var x := TreeOf(st);
    forall r: Links.Ref, i: nat
      ensures Links.Leads(x, r, i) <==> r.dir == ROOTINO && exists k: nat ::
                k < |files| + 2 && r.name == Key(RootName(files, k)) && i == if k < 2 then ROOTINO else k
    {
      ImageLeads(st, freeblock, files, r, i);
    }
    assert RootOnly(x, files);
    ImageNodes(st, freeblock, files);
    hide RootOnly, RootAndFiles;
    ImageInv(x, files);
  }

  lemma ImageNodes(st: State, freeblock: nat, files: seq<File>)
    requires |files| + 2 <= 0x1_0000 && Built(st, freeblock, files) && DirsGood(st)
    ensures |st.inodes| <= 0x1_0000 && RootAndFiles(TreeOf(st), files)
  {
    hide DirsGood, Built, NodeOf;
    ImageSize(st, freeblock, files);
    var x := TreeOf(st);
    forall i: nat | i < |x|
      ensures i == ROOTINO ==> x[i].kind == I_DIR && x[i].nlink == 1
      ensures 2 <= i < |files| + 2 ==> x[i] == Links.Node(I_FILE, 1, map[])
      ensures i == 0 || i >= |files| + 2 ==> x[i] == Links.Node(0, 0, map[])
    {
      ImageNode(st, freeblock, files, i);
    }
  }

  lemma ImageSize(st: State, freeblock: nat, files: seq<File>)
    requires |files| + 2 <= 0x1_0000 && Built(st, freeblock, files)
    ensures |files| + 2 <= |st.inodes| == 200
  {
    hide Recorded, Backed, MapOk, Synced, RootBuilt, NoHoles, FileAt;
  }
}
