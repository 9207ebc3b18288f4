/**
 create, sys_link and sys_unlink (kernel/src/sysfile.c) over directories, inodes and blocks: each does to the
 directory tree what Links says, whether it succeeds or fails.
 */
module LinkOps {
  import opened Blocks
  import opened Names
  import opened FsLayout
  import opened FsState
  import opened FsSpace
  import opened FsTrail
  import opened FsBlocks
  import opened FsWrite
  import opened FsFiles
  import opened FsTrunc
  import opened Dir
  import opened DirOps
  import Links

  /** File sizes are in range and every directory is a map with its dots in front. */
  ghost predicate DirsGood(st: State) {
    && AllShaped(st.inodes)
    && forall i: nat {:trigger st.inodes[i]} :: i < |st.inodes| ==>
         st.inodes[i].size <= LIMIT && DirGood(st.inodes[i], FileAt(st, i))
  }

  predicate DirGood(ino: Inode, c: seq<Byte>) {
    ino.kind == I_DIR ==> IsDir(c) && DotsFirst(c)
  }

  function NodeOf(ino: Inode, c: seq<Byte>): Links.Node {
    Links.Node(ino.kind, ino.nlink, if ino.kind == I_DIR then Ents(c) else map[])
  }

  /** The directory tree that the disk shows. */
  ghost function TreeOf(st: State): (t: Links.Tree)
    requires DirsGood(st)
    ensures |t| == |st.inodes|
    ensures forall i: nat {:trigger t[i]} {:trigger st.inodes[i]} :: i < |t| ==>
              t[i] == NodeOf(st.inodes[i], FileAt(st, i))
  {
    seq(|st.inodes|, i requires 0 <= i < |st.inodes| => NodeOf(st.inodes[i], FileAt(st, i)))
  }

  ghost predicate Whole(sb: Superblock, st: State) {
    FsOk(sb, st) && Tidy(st.inodes) && |st.inodes| <= 0x1_0000 && DirsGood(st)
  }

  /** isdirempty: no entry in use from the third on. */
  method Isdirempty(fs: Fs, dp: nat) returns (empty: bool)
    requires FsOk(fs.sb, fs.St()) && dp < |fs.inodes| && fs.inodes[dp].size % DIRENT == 0
    requires fs.inodes[dp].size >= 2 * DIRENT
    modifies fs
    ensures fs.St() == old(fs.St()) && fs.logged == old(fs.logged) && fs.inodes[dp].size <= LIMIT
    ensures var c := FileAt(fs.St(), dp); empty <==> forall k: nat :: 2 <= k < Count(c) ==> Inum(c, k) == 0
  {
    hide Recorded, Backed, MapOk, Synced, NoHoles, FieldName, Inum, NameAt, ByteAt;
    SizeLimit(fs.sb, fs.St(), dp);
    var off, size := 2 * DIRENT, fs.inodes[dp].size;
    ghost var c := FileAt(fs.St(), dp);
    while off < size
      invariant off % DIRENT == 0 && 2 * DIRENT <= off <= size && fs.St() == old(fs.St())
      invariant fs.logged == old(fs.logged)
      invariant forall k: nat :: 2 <= k < off / DIRENT ==> Inum(c, k) == 0
    {
      var de := ReadEntry(fs, dp, off);
      if Inum(de, 0) != 0 {
        return false;
      }
      off := off + DIRENT;
    }
    return true;
  }

  /** ip->nlink = n; iupdate(ip) */
  method SetNlink(fs: Fs, i: nat, n: nat)
    requires Whole(fs.sb, fs.St()) && i < |fs.inodes| && n < NLINK_LIMIT
    modifies fs
    ensures FsOk(fs.sb, fs.St()) && Tidy(fs.inodes) && |fs.inodes| == |old(fs.inodes)|
    ensures fs.inodes == old(fs.inodes)[i := old(fs.inodes)[i].(nlink := n)] && fs.own == old(fs.own)
    ensures forall j: nat :: j < |fs.inodes| ==>
              fs.inodes[j].size <= LIMIT && FileAt(fs.St(), j) == old(FileAt(fs.St(), j))
    ensures Traced(old(fs.Tr()), fs.Tr(), {InodeBlock(fs.sb, i)})
  {
    hide Recorded, Backed, MapOk, Synced, NoHoles, ByteAt, DirGood, Traced;
    var ino := fs.inodes[i].(nlink := n);
    RestatedKeeps(fs.sb, fs.St(), i, ino);
    fs.inodes := fs.inodes[i := ino];
    Iupdate(fs, i);
  }

  /** The name a directory may get next: its dots come first. */
  predicate InTurn(c: seq<Byte>, t: seq<Byte>) {
    (Count(c) == 0 ==> t == [46]) && (Count(c) == 1 ==> t == [46, 46])
  }

  /** A linked entry does not displace the dots. */
  lemma DotsStay(c: seq<Byte>, k: nat, inum: nat, t: seq<Byte>)
    requires |c| % DIRENT == 0 && DotsFirst(c) && k <= Count(c) && (k < Count(c) ==> Inum(c, k) == 0) && InTurn(c, t)
    requires 0 < inum < 0x1_0000 && IsString(t) && Key(t) == t
    ensures DotsFirst(WithEntry(c, k, Entry(inum, t)))
  {
    EntryOf(inum, t);
    hide Inum, NameAt, WithEntry, Key;
    WithEntryAt(c, k, Entry(inum, t), 0);
    WithEntryAt(c, k, Entry(inum, t), 1);
  }

  /** What dirlink did to directory dp: the state is good again and its node has one more entry. */
  lemma LinkedGood(st: State, st': State, dp: nat, t: seq<Byte>, inum: nat, k: nat)
    requires DirsGood(st) && dp < |st.inodes| == |st'.inodes| && AllShaped(st'.inodes) && 0 < inum < 0x1_0000
    requires st.inodes[dp].kind == I_DIR
    requires forall i: nat :: i < |st.inodes| ==> st'.inodes[i].size <= LIMIT
    requires forall i: nat :: i < |st.inodes| && i != dp ==>
              st'.inodes[i] == st.inodes[i] && FileAt(st', i) == FileAt(st, i)
    requires st'.inodes[dp].kind == st.inodes[dp].kind && st'.inodes[dp].nlink == st.inodes[dp].nlink
    requires var c, c' := FileAt(st, dp), FileAt(st', dp);
             && k <= Count(c) && (forall j: nat :: j < k ==> Inum(c, j) != 0) && (k < Count(c) ==> Inum(c, k) == 0)
             && c' == WithEntry(c, k, Entry(inum, t)) && IsDir(c')
             && (forall u: seq<Byte> :: Lookup(c', u) == if Key(u) == Key(t) then inum else Lookup(c, u))
             && IsString(t) && Key(t) == t && InTurn(c, t)
    ensures DirsGood(st') && TreeOf(st') == TreeOf(st)[dp := Links.WithEntry(TreeOf(st)[dp], Key(t), inum)]
  {
    hide Inum, NameAt, Lookup, Key, Entry, ByteAt, Ents, Shape;
    var c, c' := FileAt(st, dp), FileAt(st', dp);
    assert DirGood(st.inodes[dp], c);
    DotsStay(c, k, inum, t);
    EntsAfterLink(c, c', inum, t);
    assert DirsGood(st') by {
      forall i: nat | i < |st'.inodes| ensures DirGood(st'.inodes[i], FileAt(st', i)) {
        assert DirGood(st.inodes[i], FileAt(st, i));
      }
    }
    var x, x' := TreeOf(st), TreeOf(st');
    forall i: nat | i < |x| ensures x'[i] == x[dp := Links.WithEntry(x[dp], Key(t), inum)][i] {
    }
  }

  /** Changing only link counts: the tree changes there only. */
  lemma CountedGood(st: State, st': State, i: nat, n: nat)
    requires DirsGood(st) && i < |st.inodes| && AllShaped(st'.inodes)
    requires st'.inodes == st.inodes[i := st.inodes[i].(nlink := n)]
    requires forall j: nat :: j < |st.inodes| ==> st'.inodes[j].size <= LIMIT && FileAt(st', j) == FileAt(st, j)
    ensures DirsGood(st') && TreeOf(st') == TreeOf(st)[i := TreeOf(st)[i].(nlink := n)]
  {
    hide ByteAt, Ents, Shape, IsDir, DotsFirst;
    forall j: nat | j < |st'.inodes| ensures DirGood(st'.inodes[j], FileAt(st', j)) {
      assert DirGood(st.inodes[j], FileAt(st, j));
    }
    var x, x' := TreeOf(st), TreeOf(st');
    forall j: nat | j < |x| ensures x'[j] == x[i := x[i].(nlink := n)][j] {
    }
  }

  // The steps, seen as changes of the tree.

  /** ip->nlink = n; iupdate(ip) */
  method StoreCount(fs: Fs, i: nat, n: nat)
    requires Whole(fs.sb, fs.St()) && i < |fs.inodes| && n < NLINK_LIMIT
    modifies fs
    ensures Whole(fs.sb, fs.St()) && fs.inodes == old(fs.inodes)[i := old(fs.inodes)[i].(nlink := n)]
    ensures fs.own == old(fs.own)
    ensures forall j: nat :: j < |fs.inodes| ==> FileAt(fs.St(), j) == old(FileAt(fs.St(), j))
    ensures BytesKept(old(fs.St()), fs.St(), -1)
    ensures TreeOf(fs.St()) == old(TreeOf(fs.St()))[i := old(TreeOf(fs.St()))[i].(nlink := n)]
    ensures Logs(fs.sb, old(fs.Tr()), fs.Tr(), i, i, 0)
  {
    hide FsOk, Tidy, FileAt, DirGood, Traced, Logs;
    ghost var st, tr := fs.St(), fs.Tr();
    SetNlink(fs, i, n);
    LogsInode(fs.sb, tr, fs.Tr(), i);
    OkShapes(fs.sb, fs.St());
    CountedGood(st, fs.St(), i, n);
  }

  lemma OkShapes(sb: Superblock, st: State)
    requires FsOk(sb, st)
    ensures AllShaped(st.inodes)
    ensures forall i: nat {:trigger st.inodes[i]} :: i < |st.inodes| ==> st.inodes[i].size <= LIMIT
  {
    hide Recorded, Backed, MapOk, Synced;
    forall i: nat | i < |st.inodes| ensures st.inodes[i].size <= LIMIT {
      assert NoHoles(st.disk, st.inodes[i]);
    }
  }

  /** Directory dp has no free entry and cannot grow. */
  ghost predicate FullAt(st: State, dp: nat)
    requires DirsGood(st) && dp < |st.inodes|
  {
    DirFull(FileAt(st, dp))
  }

  /** Directory dp of state st takes no entry for name t: it has the name, or it is full. */
  ghost predicate Refuses(st: State, dp: nat, t: Links.Name)
    requires DirsGood(st) && dp < |st.inodes|
  {
    t in TreeOf(st)[dp].ents || FullAt(st, dp)
  }

  /** Every inode but i, and what is in it, is the same. */
  ghost predicate OthersSame(st: State, st': State, i: nat)
    requires DirsGood(st) && DirsGood(st')
  {
    && |st'.inodes| == |st.inodes|
    && forall j: nat :: j < |st.inodes| && j != i ==> st'.inodes[j] == st.inodes[j] && FileAt(st', j) == FileAt(st, j)
  }

  /** Every file but inode i is the same up to its link count, and so is every byte of it. */
  ghost predicate BytesKept(st: State, st': State, i: int)
    requires DirsGood(st) && DirsGood(st')
  {
    && |st'.inodes| == |st.inodes|
    && forall j: nat :: j < |st.inodes| && j != i && st.inodes[j].kind != I_DIR && st.inodes[j].kind != 0 ==>
                          st'.inodes[j] == st.inodes[j].(nlink := st'.inodes[j].nlink)
                            && FileAt(st', j) == FileAt(st, j)
  }

  lemma BytesTwice(st: State, mid: State, st': State, i: int)
    requires DirsGood(st) && DirsGood(mid) && DirsGood(st') && BytesKept(st, mid, i) && BytesKept(mid, st', i)
    ensures BytesKept(st, st', i)
  {
    hide DirGood, FileAt;
  }

  lemma BytesOnce(st: State, st': State, i: int, k: int)
    requires DirsGood(st) && DirsGood(st')
    ensures BytesKept(st, st', -1) ==> BytesKept(st, st', i)
    ensures k >= 0 && OthersSame(st, st', k) ==> BytesKept(st, st', k)
    ensures 0 <= k < |st.inodes| && OthersSame(st, st', k) && st.inodes[k].kind == I_DIR ==> BytesKept(st, st', i)
  {
    hide DirGood, FileAt;
  }

  lemma OthersTwice(st: State, mid: State, st': State, i: nat)
    requires DirsGood(st) && DirsGood(mid) && DirsGood(st') && OthersSame(st, mid, i) && OthersSame(mid, st', i)
    ensures OthersSame(st, st', i)
  {
    hide DirGood, FileAt;
  }

  /** What happens to another inode does not change what an entry in dp asks for. */
  lemma KeptNeeds(st: State, st': State, i: nat, dp: nat)
    requires DirsGood(st) && DirsGood(st') && OthersSame(st, st', i) && dp < |st.inodes| && dp != i
    requires st'.own == st.own || OthersHold(st.own, st'.own, i)
    ensures (FullAt(st', dp) <==> FullAt(st, dp)) && NeedsAt(st', dp) == NeedsAt(st, dp)
  {
    hide DirGood, Held, DirFull;
    SameNeeds(st.own, st'.own, dp, i, FileAt(st, dp));
  }

  /** The blocks that one more entry in directory dp asks for. */
  ghost function NeedsAt(st: State, dp: nat): nat
    requires DirsGood(st) && dp < |st.inodes|
  {
    EntryNeeds(st.own, dp, FileAt(st, dp))
  }

  /** When dirlink refuses, when it dies and what it takes. */
  ghost predicate EnterResult(sb: Superblock, st: State, dp: nat, t: Links.Name, r: Linked, own': Owners)
    requires Fits(sb) && DirsGood(st) && dp < |st.inodes|
  {
    && (r.Refused? <==> Refuses(st, dp, t))
    && (r.Died? <==> !Refuses(st, dp, t) && NeedsAt(st, dp) > Room(sb, st.own))
    && (r.Done? ==> Room(sb, own') + NeedsAt(st, dp) == Room(sb, st.own))
  }

  /** Writing an entry takes one block, and the table where the entry is past the direct ones. */
  lemma EntryLogs(sb: Superblock, st: State, a: Trail, b: Trail, dp: nat, k: nat)
    requires AllShaped(st.inodes) && dp < |st.inodes| && Traced(a, b, EntryLog(sb, st, dp, k))
    ensures Logs(sb, a, b, dp, dp, 2) && (k <= 1 ==> Logs(sb, a, b, dp, dp, 1))
  {
    hide Traced, Bitmap, InodeBlock, Spots, Logs;
    var lo, hi := k * DIRENT / BSIZE, EndBlock(k * DIRENT, DIRENT);
    OneBlock(k);
    SpotsSize(st, dp, lo, hi);
    var n := |Spots(st, dp, lo, hi)|;
    LogsBy(sb, a, b, dp, Spots(st, dp, lo, hi));
    LogsMore(sb, a, b, dp, dp, n, 2);
    if k <= 1 {
      LogsMore(sb, a, b, dp, dp, n, 1);
    }
  }

  /** An entry lies in one block. */
  lemma OneBlock(k: nat)
    ensures EndBlock(k * DIRENT, DIRENT) == k * DIRENT / BSIZE + 1
    ensures k <= 1 ==> EndBlock(k * DIRENT, DIRENT) <= NDIRECT
  {
    var q, r := k / 64, k % 64;
    assert k * DIRENT == q * BSIZE + r * DIRENT;
    assert k * DIRENT / BSIZE == q && (k * DIRENT + DIRENT - 1) / BSIZE == q;
  }

  /** dirlink(dp, t, inum) */
  method EnterName(fs: Fs, dp: nat, t: seq<Byte>, inum: nat) returns (r: Linked)
    requires Whole(fs.sb, fs.St()) && dp < |fs.inodes| && fs.inodes[dp].kind == I_DIR && IsString(t) && |t| <= DIRSIZ
    requires 0 < inum < |fs.inodes|
    requires InTurn(FileAt(fs.St(), dp), t)
    modifies fs
    ensures r.Done? ==> Whole(fs.sb, fs.St()) && |fs.inodes| == |old(fs.inodes)| && t !in old(TreeOf(fs.St()))[dp].ents
    ensures r.Done? ==>
              TreeOf(fs.St()) == old(TreeOf(fs.St()))[dp := Links.WithEntry(old(TreeOf(fs.St()))[dp], t, inum)]
    ensures r.Done? ==> fs.inodes[dp] == old(fs.inodes)[dp].(size := fs.inodes[dp].size, addrs := fs.inodes[dp].addrs)
    ensures r.Done? ==> OthersSame(old(fs.St()), fs.St(), dp)
    ensures r.Done? ==>
              FileAt(fs.St(), dp) != [] && (Count(old(FileAt(fs.St(), dp))) == 0 ==> Count(FileAt(fs.St(), dp)) == 1)
    ensures r.Done? ==> OthersHold(old(fs.own), fs.own, dp)
    ensures r.Refused? ==> fs.St() == old(fs.St()) && fs.logged == old(fs.logged)
    ensures EnterResult(fs.sb, old(fs.St()), dp, t, r, fs.own)
    ensures r.Done? ==> Logs(fs.sb, old(fs.Tr()), fs.Tr(), dp, dp, 2)
    ensures r.Done? && Count(old(FileAt(fs.St(), dp))) <= 1 ==> Logs(fs.sb, old(fs.Tr()), fs.Tr(), dp, dp, 1)
  {
    hide FsOk, FileAt, Lookup, IsDir, DotsFirst, Ents, Owned, Used, HasBlank, EntryNeeds, Room, OthersHold, DirFull,
         EntryLog, Traced, Logs;
    ghost var st, k, tr := fs.St(), 0, fs.Tr();
    assert DirGood(st.inodes[dp], FileAt(st, dp));
    assert Key(t) == t;
    InEnts(FileAt(st, dp), t);
    r, k := Dirlink(fs, dp, t, inum);
    if r.Done? {
      OkShapes(fs.sb, fs.St());
      DirLen(FileAt(st, dp));
      WithEntryAt(FileAt(st, dp), k, Entry(inum, t), 0);
      hide Key;
      EntryLogs(fs.sb, fs.St(), tr, fs.Tr(), dp, k);
      LinkedGood(st, fs.St(), dp, t, inum, k);
      TidyStays(st.inodes, fs.inodes, dp);
    }
  }

  /** The two dots are two entries. */
  lemma HasDots(st: State, dp: nat)
    requires DirsGood(st) && Links.Directory(TreeOf(st), dp) && Links.DOT in TreeOf(st)[dp].ents
    requires Links.DOTDOT in TreeOf(st)[dp].ents
    ensures Count(FileAt(st, dp)) >= 2
  {
    hide Ents;
    TwoNames(FileAt(st, dp));
  }

  /** dirlink in a directory that has its dots. */
  method EnterDir(fs: Fs, dp: nat, t: seq<Byte>, inum: nat) returns (r: Linked)
    requires Whole(fs.sb, fs.St()) && Links.Directory(TreeOf(fs.St()), dp) && IsString(t) && |t| <= DIRSIZ
    requires 0 < inum < |fs.inodes|
    requires Links.DOT in TreeOf(fs.St())[dp].ents && Links.DOTDOT in TreeOf(fs.St())[dp].ents
    modifies fs
    ensures r.Done? ==> Whole(fs.sb, fs.St()) && |fs.inodes| == |old(fs.inodes)| && t !in old(TreeOf(fs.St()))[dp].ents
    ensures r.Done? ==>
              TreeOf(fs.St()) == old(TreeOf(fs.St()))[dp := Links.WithEntry(old(TreeOf(fs.St()))[dp], t, inum)]
    ensures r.Done? ==> BytesKept(old(fs.St()), fs.St(), -1)
    ensures r.Refused? ==> fs.St() == old(fs.St()) && fs.logged == old(fs.logged)
    ensures EnterResult(fs.sb, old(fs.St()), dp, t, r, fs.own)
    ensures r.Done? ==> Logs(fs.sb, old(fs.Tr()), fs.Tr(), dp, dp, 2)
  {
    hide FsOk, Tidy, FileAt, Ents, DirGood, EnterResult, OthersHold, OthersSame, BytesKept, Logs;
    HasDots(fs.St(), dp);
    ghost var st := fs.St();
    r := EnterName(fs, dp, t, inum);
    if r.Done? {
      BytesOnce(st, fs.St(), -1, dp);
    }
  }

  lemma BytesSame(st: State)
    requires DirsGood(st)
    ensures BytesKept(st, st, -1)
  {
  }

  lemma TidyStays(a: seq<Inode>, b: seq<Inode>, dp: nat)
    requires Tidy(a) && |a| == |b| && dp < |a| && b[dp].kind != 0
    requires forall i: nat :: i < |a| && i != dp ==> b[i] == a[i]
    ensures Tidy(b)
  {
  }

  datatype Ending = Ok | Fails | Died

  /** The file system is in order and every link count is right. */
  ghost predicate Sane(sb: Superblock, st: State) {
    Whole(sb, st) && Links.Inv(TreeOf(st))
  }

  /** A name that a directory does not have is none of the dots. */
  lemma NewIsProper(t: Links.Tree, dp: nat, n: Links.Name)
    requires Links.Inv(t) && Links.Directory(t, dp) && n !in t[dp].ents
    ensures Links.Proper(Links.Ref(dp, n))
  {
    Links.HasDots(t, dp);
  }

  /** What sys_link does to the tree: one more entry and one more link, or nothing. */
  ghost predicate LinkResult(x: Links.Tree, x': Links.Tree, ip: nat, dp: nat, t: Links.Name, r: Ending) {
    && (r.Ok? ==> dp < |x| && ip < |x| && dp != ip && t !in x[dp].ents && x' == Links.AddLink(x, dp, t, ip))
    && (r.Fails? ==> x' == x)
  }

  /** sys_link fails on a directory, without a directory to link from, and where that one refuses the name. */
  ghost predicate LinkRefused(st: State, ip: nat, dp: nat, t: Links.Name)
    requires DirsGood(st) && ip < |st.inodes| && dp < |st.inodes|
  {
    st.inodes[ip].kind == I_DIR || dp == 0 || Refuses(st, dp, t)
  }

  /**
   sys_link of inode ip as name t of directory dp, where dp is 0 if the path's directory was not found. It fails
   exactly on a directory, without a dp, or if dp has the name or is full; it dies exactly when the disk then
   lacks the blocks for one more entry. Link counts stay right unless it adds a name to a removed directory.
   */
  method Link(fs: Fs, ip: nat, dp: nat, t: seq<Byte>) returns (r: Ending)
    requires Sane(fs.sb, fs.St()) && IsString(t) && |t| <= DIRSIZ
    requires 0 < ip < |fs.inodes| && fs.inodes[ip].kind != 0 && fs.inodes[ip].nlink + 1 < NLINK_LIMIT
    requires dp != 0 ==> Links.Directory(TreeOf(fs.St()), dp)
    modifies fs
    ensures !r.Died? ==> Whole(fs.sb, fs.St()) && LinkResult(old(TreeOf(fs.St())), TreeOf(fs.St()), ip, dp, t, r)
    ensures !r.Died? ==> (Sane(fs.sb, fs.St()) <==> r.Fails? || Links.LinkedDir(old(TreeOf(fs.St())), dp))
    ensures !r.Died? ==> BytesKept(old(fs.St()), fs.St(), -1)
    ensures r.Fails? <==> LinkRefused(old(fs.St()), ip, dp, t)
    ensures r.Died? <==> !LinkRefused(old(fs.St()), ip, dp, t) && NeedsAt(old(fs.St()), dp) > Room(fs.sb, old(fs.own))
    ensures !r.Died? ==> LogsAtMost(old(fs.Tr()), fs.Tr(), MapBlocks(fs.sb) + 4)
  {
    hide FsOk, Tidy, DirsGood, Ents, FileAt, Links.Inv, DirFull, EntryNeeds, Room, OthersSame, BytesKept, Logs,
         LogsAtMost, MapBlocks;
    ghost var x, st, tr := TreeOf(fs.St()), fs.St(), fs.Tr();
    BytesSame(st);
    LogsNothing(fs.sb, tr, ip, dp, 0);
    LogsFew(fs.sb, tr, tr, ip, dp, 0, 4);
    if dp != 0 {
      DotsIn(x, dp);
    }
    if fs.inodes[ip].kind == I_DIR {
      return Fails;
    }
    var n := fs.inodes[ip].nlink;
    StoreCount(fs, ip, n + 1);
    ghost var mid, tr1 := fs.St(), fs.Tr();
    LogsThen(fs.sb, tr, tr, tr1, ip, dp, 0, 0);
    if dp == 0 {
      StoreCount(fs, ip, n);
      LogsThen(fs.sb, tr, tr1, fs.Tr(), ip, dp, 0, 0);
      LogsFew(fs.sb, tr, fs.Tr(), ip, dp, 0, 4);
      BytesTwice(st, mid, fs.St(), -1);
      assert TreeOf(fs.St()) == x;
      return Fails;
    }
    var d := EnterDir(fs, dp, t, ip);
    if d.Died? {
      return Ending.Died;
    }
    if d.Refused? {
      StoreCount(fs, ip, n);
      LogsThen(fs.sb, tr, tr1, fs.Tr(), ip, dp, 0, 0);
      LogsFew(fs.sb, tr, fs.Tr(), ip, dp, 0, 4);
      BytesTwice(st, mid, fs.St(), -1);
      assert TreeOf(fs.St()) == x;
      return Fails;
    }
    LogsThen(fs.sb, tr, tr1, fs.Tr(), ip, dp, 0, 2);
    LogsFew(fs.sb, tr, fs.Tr(), ip, dp, 2, 4);
    BytesTwice(st, mid, fs.St(), -1);
    LinkDone(x, dp, t, ip);
    return Ending.Ok;
  }

  lemma DirLen(c: seq<Byte>)
    requires IsDir(c)
    ensures |c| % DIRENT == 0
  {
  }

  lemma DotsIn(t: Links.Tree, dp: nat)
    requires Links.Inv(t) && Links.Directory(t, dp)
    ensures Links.DOT in t[dp].ents && Links.DOTDOT in t[dp].ents
  {
    Links.HasDots(t, dp);
  }

  lemma LinkDone(x: Links.Tree, dp: nat, t: Links.Name, i: nat)
    requires Links.Inv(x) && Links.Directory(x, dp) && t !in x[dp].ents && 0 < i < |x| && x[i].kind != 0
    requires x[i].kind != I_DIR
    ensures dp != i && (Links.Inv(Links.AddLink(x, dp, t, i)) <==> Links.LinkedDir(x, dp))
  {
    NewIsProper(x, dp, t);
    Links.LinkNeedsLinkedDir(x, dp, t, i);
  }

  // sys_unlink.

  lemma DotsStayCleared(c: seq<Byte>, k: nat)
    requires |c| % DIRENT == 0 && DotsFirst(c) && 2 <= k < Count(c)
    ensures DotsFirst(WithEntry(c, k, Blank()))
  {
    hide Inum, NameAt, WithEntry;
    WithEntryAt(c, k, Blank(), 0);
    WithEntryAt(c, k, Blank(), 1);
  }

  /** Clearing an entry: the state is good again and the node has one entry less. */
  lemma ClearedGood(st: State, st': State, dp: nat, k: nat)
    requires DirsGood(st) && dp < |st.inodes| == |st'.inodes| && AllShaped(st'.inodes) && st.inodes[dp].kind == I_DIR
    requires forall i: nat :: i < |st.inodes| ==> st'.inodes[i].size <= LIMIT
    requires forall i: nat :: i < |st.inodes| && i != dp ==>
              st'.inodes[i] == st.inodes[i] && FileAt(st', i) == FileAt(st, i)
    requires st'.inodes[dp].kind == st.inodes[dp].kind && st'.inodes[dp].nlink == st.inodes[dp].nlink
    requires var c := FileAt(st, dp);
             2 <= k < Count(c) && Inum(c, k) != 0 && IsDir(c) && FileAt(st', dp) == WithEntry(c, k, Blank())
    ensures DirsGood(st') && TreeOf(st') == TreeOf(st)[dp := Links.Without(TreeOf(st)[dp], NameAt(FileAt(st, dp), k))]
  {
    hide Inum, NameAt, Lookup, Key, ByteAt, Ents, Shape;
    var c, c' := FileAt(st, dp), FileAt(st', dp);
    assert DirGood(st.inodes[dp], c);
    DotsStayCleared(c, k);
    UnlinkIsRemoval(c, k);
    NameIsKey(c, k);
    EntsAfterUnlink(c, c', NameAt(c, k));
    assert DirsGood(st') by {
      forall i: nat | i < |st'.inodes| ensures DirGood(st'.inodes[i], FileAt(st', i)) {
        assert DirGood(st.inodes[i], FileAt(st, i));
      }
    }
    var x, x' := TreeOf(st), TreeOf(st');
    forall i: nat | i < |x| ensures x'[i] == x[dp := Links.Without(x[dp], NameAt(c, k))][i] {
    }
  }

  /** The entry of a proper name comes after the dots. */
  lemma ProperIsLater(c: seq<Byte>, k: nat)
    requires DotsFirst(c) && k < Count(c) && NameAt(c, k) != [46] && NameAt(c, k) != [46, 46]
    ensures k >= 2
  {
  }

  /** memset(&de, 0); writei(dp, &de, off): the entry of name t is cleared. */
  method ClearEntry(fs: Fs, dp: nat, t: seq<Byte>, off: nat)
    requires Whole(fs.sb, fs.St()) && Links.Directory(TreeOf(fs.St()), dp) && t != [46] && t != [46, 46]
    requires |t| <= DIRSIZ
    requires var c := FileAt(fs.St(), dp); off == DIRENT * Find(c, Key(t), 0) < |c| && |c| % DIRENT == 0
    modifies fs
    ensures Whole(fs.sb, fs.St()) && |fs.inodes| == |old(fs.inodes)|
    ensures TreeOf(fs.St()) == old(TreeOf(fs.St()))[dp := Links.Without(old(TreeOf(fs.St()))[dp], t)]
    ensures fs.inodes[dp] == old(fs.inodes)[dp].(size := fs.inodes[dp].size, addrs := fs.inodes[dp].addrs)
    ensures OthersSame(old(fs.St()), fs.St(), dp)
    ensures Logs(fs.sb, old(fs.Tr()), fs.Tr(), dp, dp, 2)
  {
    hide FsOk, Lookup, Ents, Owned, Used, Inum, NameAt, ByteAt, Spliced, Wants, Room, OthersHold, Traced, Logs, Spots,
         Bitmap;
    ghost var st, tr := fs.St(), fs.Tr();
    ghost var c := FileAt(st, dp);
    ghost var k := Find(c, Key(t), 0);
    assert DirGood(st.inodes[dp], c) && Key(t) == t;
    assert Uses(c, k, t);
    ProperIsLater(c, k);
    assert WithEntry(c, k, Blank()) == Spliced(c, off, Blank());
    var w := Writei(fs, dp, off, Blank());
    OkShapes(fs.sb, fs.St());
    EntryLogs(fs.sb, fs.St(), tr, fs.Tr(), dp, k);
    hide Key, DotsFirst, IsDir, Find;
    ClearedGood(st, fs.St(), dp, k);
    TidyStays(st.inodes, fs.inodes, dp);
  }

  /** iput, holding refs references. */
  method Release(fs: Fs, i: nat, refs: nat)
    requires Whole(fs.sb, fs.St()) && i < |fs.inodes| && refs > 0
    modifies fs
    ensures Whole(fs.sb, fs.St())
    ensures var x := old(TreeOf(fs.St()));
            TreeOf(fs.St()) == if refs == 1 && x[i].nlink == 0 then Links.Freed(x, i) else x
    ensures BytesKept(old(fs.St()), fs.St(), if refs == 1 && old(fs.inodes)[i].nlink == 0 then i else -1)
    ensures Logs(fs.sb, old(fs.Tr()), fs.Tr(), i, i, 0)
  {
    hide FsOk, Tidy, FileAt, Ents, DirGood, Traced, Bitmap, Logs;
    ghost var st, tr := fs.St(), fs.Tr();
    var r, v := Iput(fs, i, refs, true);
    LogsInode(fs.sb, tr, fs.Tr(), i);
    OkShapes(fs.sb, fs.St());
    ReleasedGood(st, fs.St(), i, refs == 1 && st.inodes[i].nlink == 0);
  }

  lemma ReleasedGood(st: State, st': State, i: nat, frees: bool)
    requires DirsGood(st) && i < |st.inodes| == |st'.inodes| && AllShaped(st'.inodes)
    requires forall j: nat :: j < |st.inodes| ==> st'.inodes[j].size <= LIMIT
    requires st'.inodes == if frees then st.inodes[i := Emptied(st.inodes[i]).(kind := 0)] else st.inodes
    requires frees ==> st.inodes[i].nlink == 0
    requires forall j: nat :: j < |st.inodes| && (j != i || !frees) ==> FileAt(st', j) == FileAt(st, j)
    ensures DirsGood(st') && TreeOf(st') == if frees then Links.Freed(TreeOf(st), i) else TreeOf(st)
  {
    hide ByteAt, Ents, Shape, IsDir, DotsFirst;
    forall j: nat | j < |st'.inodes| ensures DirGood(st'.inodes[j], FileAt(st', j)) {
      assert DirGood(st.inodes[j], FileAt(st, j));
    }
    var x, x' := TreeOf(st), TreeOf(st');
    forall j: nat | j < |x| ensures x'[j] == if frees && j == i then Links.Node(0, 0, map[]) else x[j] {
    }
  }

  predicate NonEmptyDir(x: Links.Tree, i: nat) {
    i < |x| && x[i].kind == I_DIR && !Links.IsEmpty(x[i])
  }

  /** The tree after the entry is gone, the link is gone and the reference is dropped. */
  ghost function Unlinked(x: Links.Tree, dp: nat, t: Links.Name, i: nat, refs: nat): Links.Tree
    requires dp < |x| && i < |x|
  {
    if dp == i || x[i].nlink == 0 || x[dp].nlink == 0 then x
    else
      var y := if x[i].kind == I_DIR then Links.RemoveDir(x, dp, t, i) else Links.RemoveFile(x, dp, t, i);
      if refs == 1 && y[i].nlink == 0 then Links.Freed(y, i) else y
  }

  lemma UnlinkDone(x: Links.Tree, dp: nat, t: Links.Name, i: nat, refs: nat)
    requires Links.Inv(x) && 0 < dp && Links.LinkedDir(x, dp) && t in x[dp].ents && x[dp].ents[t] == i
    requires Links.Proper(Links.Ref(dp, t))
    requires i < |x| && !NonEmptyDir(x, i)
    ensures 0 < i && dp != i && x[i].nlink > 0 && Links.Inv(Unlinked(x, dp, t, i, refs))
    ensures x[i].kind == I_DIR ==> x[dp].nlink > 1 && x[i].nlink == 1
  {
    hide Links.Inv, Links.IsEmpty;
    if x[i].kind == I_DIR {
      Links.RemoveDirKeeps(x, dp, t, i);
    } else {
      Links.RemoveFileKeeps(x, dp, t, i);
    }
    Links.LedTo(x, Links.Ref(dp, t), i);
    var y := if x[i].kind == I_DIR then Links.RemoveDir(x, dp, t, i) else Links.RemoveFile(x, dp, t, i);
    if y[i].nlink == 0 {
      Links.FreedKeeps(y, i);
    }
  }

  /**
   The name t of i is gone from dp, and nothing else: i has one link less, dp too if i was a directory in it, and i
   becomes free exactly with its last link and its last reference.
   */
  ghost predicate Dropped(x: Links.Tree, x': Links.Tree, dp: nat, t: Links.Name, i: nat, refs: nat)
    requires dp < |x| && i < |x|
  {
    && dp != i && |x'| == |x| && x[i].nlink > 0
    && x'[dp].ents == x[dp].ents - {t} && x'[dp].kind == x[dp].kind
    && x'[dp].nlink + (if x[i].kind == I_DIR then 1 else 0) == x[dp].nlink
    && (if refs == 1 && x[i].nlink == 1 then x'[i].kind == 0 && x'[i].nlink == 0 && x'[i].ents == map[]
        else x'[i].kind == x[i].kind && x'[i].nlink + 1 == x[i].nlink && x'[i].ents == x[i].ents)
    && forall d: nat :: d < |x| && d != dp && d != i ==> x'[d] == x[d]
  }

  lemma UnlinkedDropped(x: Links.Tree, dp: nat, t: Links.Name, i: nat, refs: nat)
    requires dp < |x| && i < |x| && dp != i && x[i].nlink > 0 && x[dp].nlink > 0
    ensures Dropped(x, Unlinked(x, dp, t, i, refs), dp, t, i, refs)
  {
  }

  /** What sys_unlink does to the tree, and exactly when it refuses. */
  ghost predicate UnlinkResult(x: Links.Tree, x': Links.Tree, dp: nat, t: Links.Name, refs: nat, r: Ending)
    requires dp < |x|
  {
    && (r.Fails? <==> t == Links.DOT || t == Links.DOTDOT || t !in x[dp].ents || NonEmptyDir(x, x[dp].ents[t]))
    && (r.Fails? ==> x' == x)
    && (r.Ok? ==> x[dp].ents[t] < |x| && Dropped(x, x', dp, t, x[dp].ents[t], refs))
  }

  /** The inode whose last link and last reference sys_unlink drops, if any. */
  function FreedBy(x: Links.Tree, dp: nat, t: Links.Name, refs: nat, r: Ending): int
    requires dp < |x|
  {
    if r.Ok? && refs == 1 && t in x[dp].ents && x[dp].ents[t] < |x| && x[x[dp].ents[t]].nlink == 1 then x[dp].ents[t]
    else -1
  }

  /** dirlookup of a name, as the tree shows it. */
  method FindName(fs: Fs, dp: nat, t: seq<Byte>) returns (f: Found)
    requires Whole(fs.sb, fs.St()) && Links.Directory(TreeOf(fs.St()), dp) && IsString(t) && |t| <= DIRSIZ
    modifies fs
    ensures fs.St() == old(fs.St()) && fs.logged == old(fs.logged) && !f.Panic?
    ensures f.Absent? <==> t !in TreeOf(fs.St())[dp].ents
    ensures f.At? ==>
              && f.inum == TreeOf(fs.St())[dp].ents[t]
              && f.off == DIRENT * Find(FileAt(fs.St(), dp), Key(t), 0) < |FileAt(fs.St(), dp)|
    ensures |FileAt(fs.St(), dp)| % DIRENT == 0
  {
    hide FsOk, Tidy, Lookup, Ents, ByteAt, DotsFirst, Find;
    assert DirGood(fs.inodes[dp], FileAt(fs.St(), dp));
    DirLen(FileAt(fs.St(), dp));
    InEnts(FileAt(fs.St(), dp), t);
    f := Dirlookup(fs, dp, t);
  }

  /** isdirempty, as the tree shows it. */
  method CheckEmpty(fs: Fs, i: nat) returns (e: bool)
    requires Whole(fs.sb, fs.St()) && Links.Directory(TreeOf(fs.St()), i)
    requires Links.DOT in TreeOf(fs.St())[i].ents && Links.DOTDOT in TreeOf(fs.St())[i].ents
    modifies fs
    ensures fs.St() == old(fs.St()) && fs.logged == old(fs.logged)
    ensures e <==> Links.IsEmpty(TreeOf(fs.St())[i])
  {
    hide FsOk, Tidy, Ents, ByteAt, Inum, NameAt, DotsFirst, IsDir;
    assert DirGood(fs.inodes[i], FileAt(fs.St(), i));
    DirLen(FileAt(fs.St(), i));
    HasDots(fs.St(), i);
    EmptyFromSecond(FileAt(fs.St(), i));
    e := Isdirempty(fs, i);
  }

  /**
   sys_unlink of name t in directory dp; refs counts the references to what the name leads to. The panic on a
   link count below one is out of reach. A removed directory has no name to unlink.
   */
  method Unlink(fs: Fs, dp: nat, t: seq<Byte>, refs: nat) returns (r: Ending)
    requires Sane(fs.sb, fs.St()) && IsString(t) && |t| <= DIRSIZ && refs > 0 && 0 < dp
    requires Links.Directory(TreeOf(fs.St()), dp)
    modifies fs
    ensures !r.Died? && Sane(fs.sb, fs.St()) && UnlinkResult(old(TreeOf(fs.St())), TreeOf(fs.St()), dp, t, refs, r)
    ensures BytesKept(old(fs.St()), fs.St(), FreedBy(old(TreeOf(fs.St())), dp, t, refs, r))
    ensures LogsAtMost(old(fs.Tr()), fs.Tr(), MapBlocks(fs.sb) + 4)
  {
    hide FsOk, Tidy, DirsGood, Ents, FileAt, Links.Inv, Links.IsEmpty, BytesKept, Logs, LogsAtMost, MapBlocks;
    ghost var x, st, tr := TreeOf(fs.St()), fs.St(), fs.Tr();
    BytesSame(st);
    LogsNothing(fs.sb, tr, dp, dp, 0);
    LogsFew(fs.sb, tr, tr, dp, dp, 0, 4);
    if t == [46] || t == [46, 46] {
      return Fails;
    }
    var f := FindName(fs, dp, t);
    if f.Absent? {
      return Fails;
    }
    var ip := f.inum;
    OnlyLinked(x, dp, t);
    EntryRange(x, dp, t);
    var isDir := fs.inodes[ip].kind == I_DIR;
    if isDir {
      DotsIn(x, ip);
      var e := CheckEmpty(fs, ip);
      if !e {
        return Fails;
      }
    }
    UnlinkDone(x, dp, t, ip, refs);
    UnlinkedDropped(x, dp, t, ip, refs);
    assert fs.inodes[ip].nlink >= 1;
    DropLink(fs, dp, t, ip, f.off);
    ghost var tr1 := fs.Tr();
    ghost var mid, gone := fs.St(), FreedBy(x, dp, t, refs, Ending.Ok);
    BytesOnce(st, mid, gone, -1);
    Release(fs, ip, refs);
    LogsThen(fs.sb, tr, tr1, fs.Tr(), dp, ip, 2, 0);
    LogsFew(fs.sb, tr, fs.Tr(), dp, ip, 2, 4);
    BytesTwice(st, mid, fs.St(), gone);
    return Ending.Ok;
  }

  /** The entry goes, for a directory the parent's link too, and then the link itself. */
  method DropLink(fs: Fs, dp: nat, t: seq<Byte>, ip: nat, off: nat)
    requires Whole(fs.sb, fs.St()) && Links.Directory(TreeOf(fs.St()), dp) && t != [46] && t != [46, 46]
    requires |t| <= DIRSIZ
    requires var c := FileAt(fs.St(), dp); off == DIRENT * Find(c, Key(t), 0) < |c| && |c| % DIRENT == 0
    requires ip < |fs.inodes| && ip != dp && fs.inodes[ip].nlink > 0
    requires (fs.inodes[ip].kind == I_DIR ==> fs.inodes[dp].nlink > 1)
    modifies fs
    ensures Whole(fs.sb, fs.St())
    ensures var x := old(TreeOf(fs.St()));
            TreeOf(fs.St()) == if x[ip].kind == I_DIR then Links.RemoveDir(x, dp, t, ip)
                               else Links.RemoveFile(x, dp, t, ip)
    ensures BytesKept(old(fs.St()), fs.St(), -1)
    ensures Logs(fs.sb, old(fs.Tr()), fs.Tr(), dp, ip, 2)
  {
    hide FsOk, Tidy, DirsGood, Ents, FileAt, Find, Key, BytesKept, OthersSame, Logs;
    ghost var x, st, tr := TreeOf(fs.St()), fs.St(), fs.Tr();
    CountRange(fs.St(), dp);
    CountRange(fs.St(), ip);
    ClearEntry(fs, dp, t, off);
    ghost var tr1 := fs.Tr();
    LogsNothing(fs.sb, tr, dp, ip, 0);
    LogsThen(fs.sb, tr, tr, tr1, dp, ip, 0, 2);
    BytesOnce(st, fs.St(), -1, dp);
    ghost var cleared := fs.St();
    assert fs.inodes[ip].nlink == st.inodes[ip].nlink
           && fs.inodes[ip].kind == st.inodes[ip].kind by { SameInode(st, cleared, dp, ip); }
    if fs.inodes[ip].kind == I_DIR {
      StoreCount(fs, dp, fs.inodes[dp].nlink - 1);
      LogsThen(fs.sb, tr, tr1, fs.Tr(), dp, ip, 2, 0);
      BytesTwice(st, cleared, fs.St(), -1);
    }
    ghost var mid, tr2 := fs.St(), fs.Tr();
    StoreCount(fs, ip, fs.inodes[ip].nlink - 1);
    LogsThen(fs.sb, tr, tr2, fs.Tr(), dp, ip, 2, 0);
    BytesTwice(st, mid, fs.St(), -1);
    assert TreeOf(fs.St()) == if x[ip].kind == I_DIR then Links.RemoveDir(x, dp, t, ip)
                              else Links.RemoveFile(x, dp, t, ip);
  }

  lemma SameInode(st: State, st': State, i: nat, j: nat)
    requires DirsGood(st) && DirsGood(st') && OthersSame(st, st', i) && j < |st.inodes| && j != i
    ensures st'.inodes[j] == st.inodes[j]
  {
  }

  lemma CountRange(st: State, i: nat)
    requires DirsGood(st) && i < |st.inodes|
    ensures st.inodes[i].nlink < NLINK_LIMIT
  {
  }

  /** A directory with a proper name in it is linked. */
  lemma OnlyLinked(x: Links.Tree, dp: nat, t: Links.Name)
    requires Links.Inv(x) && Links.Directory(x, dp) && t in x[dp].ents && t != Links.DOT && t != Links.DOTDOT
    ensures Links.LinkedDir(x, dp)
  {
  }

  lemma EntryRange(x: Links.Tree, dp: nat, t: Links.Name)
    requires Links.Inv(x) && Links.LinkedDir(x, dp) && t in x[dp].ents
    ensures var i := x[dp].ents[t]; 0 < i < |x| && x[i].kind != 0 && (x[i].kind == I_DIR ==> Links.LinkedDir(x, i))
  {
    var i := x[dp].ents[t];
    assert Links.Leads(x, Links.Ref(dp, t), i);
    Links.CountOf(x, i);
    if t != Links.DOT {
      Links.InRefs(x, i, Links.Ref(dp, t));
    }
  }

  // create.

  /** ialloc, then major, minor and one link, then iupdate. */
  method AllocNode(fs: Fs, kind: nat, major: nat, minor: nat) returns (ip: nat)
    requires Whole(fs.sb, fs.St()) && 0 < kind < SHORT_LIMIT && major < SHORT_LIMIT && minor < SHORT_LIMIT
    modifies fs
    ensures Whole(fs.sb, fs.St()) && |fs.inodes| == |old(fs.inodes)|
    ensures ip == 0 ==> fs.St() == old(fs.St()) && forall i: nat :: 1 <= i < |fs.inodes| ==> fs.inodes[i].kind != 0
    ensures ip != 0 ==>
              ip < |fs.inodes| && old(fs.inodes)[ip].kind == 0 && fs.inodes[ip].kind == kind && fs.inodes[ip].nlink == 1
    ensures ip != 0 ==> forall i: nat :: 1 <= i < ip ==> old(fs.inodes)[i].kind != 0
    ensures ip != 0 ==> fs.inodes[ip].major == major && fs.inodes[ip].minor == minor
    ensures ip != 0 ==> fs.inodes[ip].size == 0 && FileAt(fs.St(), ip) == [] && Lacks(fs.own, ip, 0) == 1
    ensures fs.own == old(fs.own) && OthersSame(old(fs.St()), fs.St(), ip)
    ensures ip != 0 ==> TreeOf(fs.St()) == old(TreeOf(fs.St()))[ip := Links.Node(kind, 1, map[])]
    ensures if ip == 0 then fs.logged == old(fs.logged) else Logs(fs.sb, old(fs.Tr()), fs.Tr(), ip, ip, 0)
  {
    hide Recorded, Backed, MapOk, Synced, NoHoles, ByteAt, DirGood, Ents, Traced, Logs;
    ghost var st, tr := fs.St(), fs.Tr();
    ip := Ialloc(fs, kind);
    if ip == 0 {
      return;
    }
    ghost var tr1 := fs.Tr();
    var ino := fs.inodes[ip].(major := major, minor := minor, nlink := 1);
    RestatedKeeps(fs.sb, fs.St(), ip, ino);
    fs.inodes := fs.inodes[ip := ino];
    Iupdate(fs, ip);
    TracedThen(tr, tr1, fs.Tr(), {InodeBlock(fs.sb, ip)}, {InodeBlock(fs.sb, ip)});
    LogsInode(fs.sb, tr, fs.Tr(), ip);
    OkShapes(fs.sb, fs.St());
    assert fs.inodes == st.inodes[ip := ino] && FileAt(fs.St(), ip) == [];
    AllocedGood(st, fs.St(), ip);
    TidyStays(st.inodes, fs.inodes, ip);
    HeldIff(fs.sb, fs.St(), ip, 0);
  }

  lemma NoEntries()
    ensures IsDir([]) && DotsFirst([]) && Ents([]) == map[]
  {
  }

  lemma AllocedGood(st: State, st': State, ip: nat)
    requires DirsGood(st) && ip < |st.inodes| == |st'.inodes| && AllShaped(st'.inodes)
    requires forall j: nat :: j < |st.inodes| ==> st'.inodes[j].size <= LIMIT && FileAt(st', j) == FileAt(st, j)
    requires forall j: nat :: j < |st.inodes| && j != ip ==> st'.inodes[j] == st.inodes[j]
    requires FileAt(st', ip) == []
    ensures DirsGood(st')
    ensures TreeOf(st') == TreeOf(st)[ip := Links.Node(st'.inodes[ip].kind, st'.inodes[ip].nlink, map[])]
  {
    hide ByteAt, Ents, Shape, IsDir, DotsFirst;
    NoEntries();
    forall j: nat | j < |st'.inodes| ensures DirGood(st'.inodes[j], FileAt(st', j)) {
      assert DirGood(st.inodes[j], FileAt(st, j));
    }
    var x, x' := TreeOf(st), TreeOf(st');
    forall j: nat | j < |x|
      ensures x'[j] == if j == ip then Links.Node(st'.inodes[ip].kind, st'.inodes[ip].nlink, map[]) else x[j]
    {
    }
  }

  /** The dots take one block, and there is no other reason for them to fail. */
  ghost predicate DotsTake(sb: Superblock, own: Owners, own': Owners, ip: nat, r: Linked)
    requires Fits(sb)
  {
    && !r.Refused? && (r.Died? <==> Room(sb, own) == 0)
    && (r.Done? ==> Room(sb, own') + 1 == Room(sb, own) && OthersHold(own, own', ip))
  }

  /** "." and ".." of a new directory. */
  method MakeDots(fs: Fs, ip: nat, dp: nat) returns (r: Linked)
    requires Whole(fs.sb, fs.St()) && 0 < ip < |fs.inodes| && 0 < dp < |fs.inodes| && ip != dp
    requires fs.inodes[ip].kind == I_DIR && fs.inodes[ip].nlink == 1
    requires fs.inodes[ip].size == 0 && FileAt(fs.St(), ip) == [] && TreeOf(fs.St())[ip] == Links.Node(I_DIR, 1, map[])
    requires Lacks(fs.own, ip, 0) == 1
    modifies fs
    ensures DotsTake(fs.sb, old(fs.own), fs.own, ip, r)
    ensures r.Done? ==> Whole(fs.sb, fs.St()) && |fs.inodes| == |old(fs.inodes)|
    ensures r.Done? ==> TreeOf(fs.St()) == old(TreeOf(fs.St()))[ip := FreshNode(I_DIR, ip, dp)]
    ensures r.Done? ==> OthersSame(old(fs.St()), fs.St(), ip)
    ensures r.Done? ==> Logs(fs.sb, old(fs.Tr()), fs.Tr(), ip, ip, 2)
  {
    hide FsOk, Tidy, DirsGood, Ents, FileAt, FullAt, NeedsAt, Room, Lacks, OthersHold, OthersSame, Logs;
    ghost var x, tr := TreeOf(fs.St()), fs.Tr();
    FirstEntry(fs.St(), ip);
    r := EnterName(fs, ip, [46], ip);
    if !r.Done? {
      return;
    }
    ghost var mid, tr1 := fs.St(), fs.Tr();
    OneEntrySize(fs.sb, fs.St(), ip);
    r := EnterName(fs, ip, [46, 46], dp);
    HoldTwice(old(fs.own), mid.own, fs.own, ip);
    if r.Done? {
      LogsThen(fs.sb, tr, tr1, fs.Tr(), ip, ip, 1, 1);
      OthersTwice(old(fs.St()), mid, fs.St(), ip);
      assert map[][Links.DOT := ip][Links.DOTDOT := dp] == map[Links.DOT := ip, Links.DOTDOT := dp];
      assert TreeOf(fs.St()) == x[ip := Links.Node(I_DIR, 1, map[Links.DOT := ip, Links.DOTDOT := dp])];
    }
  }

  /** The first entry of an empty directory needs its first block. */
  lemma FirstEntry(st: State, ip: nat)
    requires DirsGood(st) && ip < |st.inodes| && FileAt(st, ip) == [] && Lacks(st.own, ip, 0) == 1
    ensures !FullAt(st, ip) && NeedsAt(st, ip) == 1
  {
    hide Lacks;
    assert Count([]) == 0;
  }

  /** The second one is in the same block. */
  lemma OneEntrySize(sb: Superblock, st: State, ip: nat)
    requires FsOk(sb, st) && DirsGood(st) && ip < |st.inodes| && Count(FileAt(st, ip)) == 1
    requires st.inodes[ip].kind == I_DIR
    ensures !FullAt(st, ip) && NeedsAt(st, ip) == 0
  {
    hide FsOk, Held, DotsFirst, ByteAt;
    assert DirGood(st.inodes[ip], FileAt(st, ip));
    assert |FileAt(st, ip)| == DIRENT;
    assert Sound(sb, st) by { IsSound(sb, st); }
    BlockThere(sb, st, ip, 0);
  }

  lemma IsSound(sb: Superblock, st: State)
    requires FsOk(sb, st)
    ensures Sound(sb, st)
  {
  }

  lemma HoldTwice(own: Owners, mid: Owners, own': Owners, i: nat)
    ensures OthersHold(own, mid, i) && OthersHold(mid, own', i) ==> OthersHold(own, own', i)
  {
    hide Held;
  }

  datatype Made = Made(ip: nat) | Existing(ip: nat) | NotMade | Dead

  predicate HasFreeInode(inodes: seq<Inode>) {
    exists i: nat :: 1 <= i < |inodes| && inodes[i].kind == 0
  }

  /** create hands out what the name leads to. */
  predicate Reusable(x: Links.Tree, dp: nat, t: Links.Name, kind: nat)
    requires dp < |x|
  {
    && t in x[dp].ents && kind == I_FILE && x[dp].ents[t] < |x|
    && (x[x[dp].ents[t]].kind == I_FILE || x[x[dp].ents[t]].kind == I_DEVICE)
  }

  /** The name is there and leads to a free inode, as ".." of a removed directory may. */
  predicate Dangles(x: Links.Tree, dp: nat, t: Links.Name)
    requires dp < |x|
  {
    t in x[dp].ents && x[dp].ents[t] < |x| && x[x[dp].ents[t]].kind == 0
  }

  /** In a linked directory no name does. */
  lemma LinkedNeverDangles(x: Links.Tree, dp: nat, t: Links.Name)
    requires Links.Inv(x) && Links.LinkedDir(x, dp)
    ensures !Dangles(x, dp, t)
  {
    if t in x[dp].ents {
      EntryRange(x, dp, t);
    }
  }

  /** The block that the dots of a new directory take. */
  function DotsNeed(kind: nat): nat {
    if kind == I_DIR then 1 else 0
  }

  /**
   How create ends: with the inode that is there, without one, dead for want of a block or in ilock of a free
   inode, or with a new one. A full directory is noticed after the dots are made, so the dots' block has to be
   there for create to fail.
   */
  ghost predicate CreateEnds(sb: Superblock, st: State, dp: nat, t: Links.Name, kind: nat, r: Made)
    requires Fits(sb) && DirsGood(st) && dp < |st.inodes|
  {
    var x, room, full := TreeOf(st), Room(sb, st.own), FullAt(st, dp);
    var absent := t !in x[dp].ents && HasFreeInode(st.inodes);
    && (r.Existing? <==> Reusable(x, dp, t, kind))
    && (r.NotMade? <==> if absent then full && room >= DotsNeed(kind)
                        else !Reusable(x, dp, t, kind) && !Dangles(x, dp, t))
    && (r.Dead? <==> if absent then room < DotsNeed(kind) || (!full && room < DotsNeed(kind) + NeedsAt(st, dp))
                     else Dangles(x, dp, t))
  }

  /** What create does to the tree: a new inode entered in dp, or nothing. */
  ghost predicate CreateResult(x: Links.Tree, x': Links.Tree, dp: nat, t: Links.Name, kind: nat, r: Made)
    requires dp < |x|
  {
    match r
    case Made(ip) =>
      && 0 < ip < |x| && ip != dp && x[ip].kind == 0 && t !in x[dp].ents
      && (forall i: nat :: 1 <= i < ip ==> x[i].kind != 0)
      && x' == if kind == I_DIR then Links.AddDir(x, dp, t, ip) else Links.AddFile(x, dp, t, ip, kind)
    case Existing(ip) => x' == x && t in x[dp].ents && x[dp].ents[t] == ip && kind == I_FILE && ip < |x|
      && (x[ip].kind == I_FILE || x[ip].kind == I_DEVICE)
    case NotMade => x' == x
    case Dead => true
  }

  /**
   create of name t in directory dp: what it does, and exactly when it does not. Link counts stay right unless it
   makes something in a removed directory.
   */
  method Create(fs: Fs, dp: nat, t: seq<Byte>, kind: nat, major: nat, minor: nat) returns (r: Made)
    requires Sane(fs.sb, fs.St()) && IsString(t) && |t| <= DIRSIZ && 0 < dp && Links.Directory(TreeOf(fs.St()), dp)
    requires 0 < kind < SHORT_LIMIT && major < SHORT_LIMIT && minor < SHORT_LIMIT
    requires fs.inodes[dp].nlink + 1 < NLINK_LIMIT
    modifies fs
    ensures !r.Dead? ==> Whole(fs.sb, fs.St()) && CreateResult(old(TreeOf(fs.St())), TreeOf(fs.St()), dp, t, kind, r)
    ensures !r.Dead? ==> (Sane(fs.sb, fs.St()) <==> !r.Made? || Links.LinkedDir(old(TreeOf(fs.St())), dp))
    ensures CreateEnds(fs.sb, old(fs.St()), dp, t, kind, r)
    ensures !r.Dead? ==> BytesKept(old(fs.St()), fs.St(), -1)
    ensures r.Made? && kind != I_DIR ==>
              var ino := fs.inodes[r.ip];
                ino.kind == kind && ino.major == major && ino.minor == minor && ino.nlink == 1 && ino.size == 0
    ensures !r.Dead? ==> LogsAtMost(old(fs.Tr()), fs.Tr(), MapBlocks(fs.sb) + 6)
  {
    hide FsOk, Tidy, DirsGood, Ents, FileAt, Links.Inv, FullAt, NeedsAt, Room, Lacks, OthersHold, OthersSame, BytesKept,
         Logs, LogsAtMost, MapBlocks;
    ghost var x, st, tr := TreeOf(fs.St()), fs.St(), fs.Tr();
    BytesSame(st);
    LogsNothing(fs.sb, tr, dp, dp, 0);
    LogsFew(fs.sb, tr, tr, dp, dp, 0, 6);
    var f := FindName(fs, dp, t);
    if f.At? {
      NameRange(x, dp, t);
      if fs.inodes[f.inum].kind == 0 {
        return Dead;
      }
      if kind == I_FILE && (fs.inodes[f.inum].kind == I_FILE || fs.inodes[f.inum].kind == I_DEVICE) {
        return Existing(f.inum);
      }
      return NotMade;
    }
    var ip := AllocNode(fs, kind, major, minor);
    if ip == 0 {
      return NotMade;
    }
    FreeNode(x, ip);
    ghost var mid, tr1 := fs.St(), fs.Tr();
    KeptNeeds(st, mid, ip, dp);
    var d := Linked.Done;
    if kind == I_DIR {
      d := MakeDots(fs, ip, dp);
      if d.Done? {
        KeptNeeds(mid, fs.St(), ip, dp);
        OthersTwice(st, mid, fs.St(), ip);
      }
    }
    if d.Died? {
      return Dead;
    }
    ghost var made, tr2 := fs.St(), fs.Tr();
    BytesOnce(st, made, -1, ip);
    r := FinishCreate(fs, x, dp, t, ip, kind);
    if !r.Dead? {
      CreateLogs(fs.sb, tr, tr1, tr2, fs.Tr(), ip, dp);
      BytesTwice(st, made, fs.St(), ip);
      WasFree(st, fs.St(), ip);
    }
  }

  lemma NameRange(x: Links.Tree, dp: nat, t: Links.Name)
    requires Links.Inv(x) && Links.Directory(x, dp) && t in x[dp].ents
    ensures x[dp].ents[t] < |x|
  {
  }

  /** The new inode, its dots and its entry. */
  lemma CreateLogs(sb: Superblock, a: Trail, b: Trail, c: Trail, d: Trail, ip: nat, dp: nat)
    requires Logs(sb, a, b, ip, ip, 0) && (b == c || Logs(sb, b, c, ip, ip, 2)) && Logs(sb, c, d, ip, dp, 2)
    ensures LogsAtMost(a, d, MapBlocks(sb) + 6)
  {
    hide Logs, LogsAtMost, MapBlocks;
    LogsNothing(sb, a, ip, dp, 0);
    LogsThen(sb, a, a, b, ip, dp, 0, 0);
    LogsNothing(sb, b, ip, dp, 2);
    LogsThen(sb, a, b, c, ip, dp, 0, 2);
    LogsThen(sb, a, c, d, ip, dp, 2, 2);
    LogsFew(sb, a, d, ip, dp, 4, 6);
  }

  lemma SameNeeds(own: Owners, own': Owners, dp: nat, i: nat, c: seq<Byte>)
    requires dp != i
    ensures own' == own || OthersHold(own, own', i) ==> EntryNeeds(own', dp, c) == EntryNeeds(own, dp, c)
  {
    hide Held;
    var s := Slot(|c| / BSIZE);
    assert OthersHold(own, own', i) ==>
        (Held(own', dp, s) <==> Held(own, dp, s)) && (Held(own', dp, NDIRECT) <==> Held(own, dp, NDIRECT));
  }

  /** An inode that was free has no bytes to keep. */
  lemma WasFree(st: State, st': State, ip: nat)
    requires DirsGood(st) && DirsGood(st') && BytesKept(st, st', ip) && ip < |st.inodes| && st.inodes[ip].kind == 0
    ensures BytesKept(st, st', -1)
  {
  }

  /** A new inode before it is entered anywhere. */
  function FreshNode(kind: nat, ip: nat, dp: nat): Links.Node {
    Links.Node(kind, 1, if kind == I_DIR then map[Links.DOT := ip, Links.DOTDOT := dp] else map[])
  }

  /** A free inode, as the tree shows it. */
  lemma FreeNode(x: Links.Tree, i: nat)
    requires Links.Inv(x) && 0 < i < |x| && x[i].kind == 0
    ensures x[i].nlink == 0
  {
    Links.FreeRefs(x, i);
  }

  /** The second half of create: enter the new inode in dp, or give it back. */
  method FinishCreate(fs: Fs, ghost x: Links.Tree, dp: nat, t: seq<Byte>, ip: nat, kind: nat) returns (r: Made)
    requires Whole(fs.sb, fs.St()) && Links.Inv(x) && |x| == |fs.inodes| && IsString(t) && |t| <= DIRSIZ && 0 < dp
    requires Links.Directory(x, dp)
    requires forall i: nat :: 1 <= i < ip && i < |x| ==> x[i].kind != 0
    requires 0 < ip < |x| && dp != ip && x[ip] == Links.Node(0, 0, map[]) && t !in x[dp].ents && kind != 0
    requires x[dp].nlink + 1 < NLINK_LIMIT
    requires TreeOf(fs.St()) == x[ip := FreshNode(kind, ip, dp)]
    modifies fs
    ensures !r.Dead? ==> Whole(fs.sb, fs.St()) && CreateResult(x, TreeOf(fs.St()), dp, t, kind, r) && !r.Existing?
    ensures !r.Dead? ==> (Sane(fs.sb, fs.St()) <==> !r.Made? || Links.LinkedDir(x, dp))
    ensures !r.Dead? ==> BytesKept(old(fs.St()), fs.St(), ip) && (r.Made? ==> r.ip == ip)
    ensures r.Made? && kind != I_DIR ==> fs.inodes[ip] == old(fs.inodes)[ip]
    ensures r.NotMade? <==> FullAt(old(fs.St()), dp)
    ensures r.Dead? <==> !FullAt(old(fs.St()), dp) && NeedsAt(old(fs.St()), dp) > Room(fs.sb, old(fs.own))
    ensures !r.Dead? ==> Logs(fs.sb, old(fs.Tr()), fs.Tr(), ip, dp, 2)
  {
    hide FsOk, Tidy, DirsGood, Ents, FileAt, Links.Inv, FullAt, NeedsAt, Room, OthersHold, OthersSame, Logs;
    ghost var tr := fs.Tr();
    LogsNothing(fs.sb, tr, ip, dp, 0);
    DotsIn(x, dp);
    var d := EnterDir(fs, dp, t, ip);
    if d.Died? {
      return Dead;
    }
    if d.Refused? {
      StoreCount(fs, ip, 0);
      ghost var tr1 := fs.Tr();
      LogsThen(fs.sb, tr, tr, tr1, ip, dp, 0, 0);
      Release(fs, ip, 1);
      LogsThen(fs.sb, tr, tr1, fs.Tr(), ip, dp, 0, 0);
      LogsMore(fs.sb, tr, fs.Tr(), ip, dp, 0, 2);
      assert TreeOf(fs.St()) == x;
      return NotMade;
    }
    ghost var tr1 := fs.Tr();
    LogsThen(fs.sb, tr, tr, tr1, ip, dp, 0, 2);
    if kind == I_DIR {
      StoreCount(fs, dp, fs.inodes[dp].nlink + 1);
      LogsThen(fs.sb, tr, tr1, fs.Tr(), ip, dp, 2, 0);
      assert TreeOf(fs.St()) == Links.AddDir(x, dp, t, ip);
    } else {
      assert TreeOf(fs.St()) == Links.AddFile(x, dp, t, ip, kind);
      assert TreeOf(fs.St())[ip].nlink == 1;
    }
    CreateDone(x, dp, t, ip, kind);
    return Made(ip);
  }

  lemma CreateDone(x: Links.Tree, dp: nat, t: Links.Name, i: nat, kind: nat)
    requires Links.Inv(x) && 0 < dp && Links.Directory(x, dp) && t !in x[dp].ents && 0 < i < |x| && x[i].kind == 0
    requires kind != 0 && dp != i
    ensures Links.Inv(if kind == I_DIR then Links.AddDir(x, dp, t, i) else Links.AddFile(x, dp, t, i, kind))
            <==> Links.LinkedDir(x, dp)
  {
    NewIsProper(x, dp, t);
    if kind == I_DIR {
      Links.DirNeedsLinkedDir(x, dp, t, i);
    } else {
      Links.FileNeedsLinkedDir(x, dp, t, i, kind);
    }
  }
}
