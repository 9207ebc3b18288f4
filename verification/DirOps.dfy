/** dirlookup and dirlink (kernel/src/fs.c) over readi and writei. */
module DirOps {
  import opened Blocks
  import opened Names
  import opened FsLayout
  import opened FsState
  import opened FsSpace
  import opened FsBlocks
  import opened FsWrite
  import opened FsTrail
  import opened FsFiles
  import opened Dir

  datatype Found = Absent | At(inum: nat, off: nat) | Panic

  /** The directory entry at off, as readi delivers it. */
  method ReadEntry(fs: Fs, dp: nat, off: nat) returns (de: seq<Byte>)
    requires FsOk(fs.sb, fs.St()) && dp < |fs.inodes| && off % DIRENT == 0 && off + DIRENT <= fs.inodes[dp].size
    modifies fs
    ensures fs.St() == old(fs.St()) && fs.logged == old(fs.logged) && |de| == DIRENT
    ensures var c, k := FileAt(fs.St(), dp), off / DIRENT;
            k < Count(c) && Inum(de, 0) == Inum(c, k) && NameAt(de, 0) == NameAt(c, k)
  {
    hide Recorded, Backed, MapOk, Synced, NoHoles, FieldName;
    assert NoHoles(fs.disk, fs.inodes[dp]);
    SizeLimit(fs.sb, fs.St(), dp);
    de := Readi(fs, dp, off, DIRENT);
    EntryRead(FileAt(fs.St(), dp), off, de);
  }

  lemma EntryRead(c: seq<Byte>, off: nat, de: seq<Byte>)
    requires off % DIRENT == 0 && off + DIRENT <= |c| && de == c[off..off + DIRENT]
    ensures var k := off / DIRENT; k < Count(c) && Inum(de, 0) == Inum(c, k) && NameAt(de, 0) == NameAt(c, k)
  {
    hide FieldName;
    assert de[2..DIRENT] == c[off + 2..off + DIRENT];
  }

  lemma SizeLimit(sb: Superblock, st: State, i: nat)
    requires Sound(sb, st) && i < |st.inodes|
    ensures st.inodes[i].size <= LIMIT
  {
    assert NoHoles(st.disk, st.inodes[i]);
  }

  /** The contents of file i. */
  function Bytes(sb: Superblock, st: State, i: nat): seq<Byte>
    requires FsOk(sb, st) && i < |st.inodes|
  {
    SizeLimit(sb, st, i);
    FileAt(st, i)
  }

  /** dirlookup finds the first entry in use under the name; it panics exactly on something that is not a directory. */
  method Dirlookup(fs: Fs, dp: nat, t: seq<Byte>) returns (r: Found)
    requires FsOk(fs.sb, fs.St()) && dp < |fs.inodes| && IsString(t)
    requires fs.inodes[dp].kind == I_DIR ==> fs.inodes[dp].size % DIRENT == 0
    modifies fs
    ensures fs.St() == old(fs.St()) && fs.logged == old(fs.logged) && (r.Panic? <==> fs.inodes[dp].kind != I_DIR)
    ensures var c := FileAt(fs.St(), dp);
            && (r.Absent? ==> Lookup(c, t) == 0)
            && (r.At? ==> r.inum == Lookup(c, t) != 0 && r.off == DIRENT * Find(c, Key(t), 0) < |c|)
  {
    hide Recorded, Backed, MapOk, Synced, NoHoles, FieldName, Key, Inum, NameAt;
    if fs.inodes[dp].kind != I_DIR {
      return Found.Panic;
    }
    SizeLimit(fs.sb, fs.St(), dp);
    ghost var c := FileAt(fs.St(), dp);
    var off, size := 0, fs.inodes[dp].size;
    while off < size
      invariant off % DIRENT == 0 && off <= size && fs.St() == old(fs.St()) && fs.logged == old(fs.logged)
      invariant Find(c, Key(t), 0) >= off / DIRENT
    {
      var de := ReadEntry(fs, dp, off);
      ghost var k := off / DIRENT;
      var inum := Inum(de, 0);
      if inum != 0 {
        NameField(de);
        var d := Namecmp(t, de[2..DIRENT]);
        if d == 0 {
          assert Uses(c, k, Key(t));
          return Found.At(inum, off);
        }
      }
      assert !Uses(c, k, Key(t));
      off := off + DIRENT;
    }
    return Absent;
  }

  lemma NameField(de: seq<Byte>)
    requires |de| == DIRENT
    ensures NameAt(de, 0) == FieldName(de[2..DIRENT])
  {
  }

  datatype Linked = Done | Refused | Died

  /** An entry not in use. */
  ghost predicate HasBlank(c: seq<Byte>) {
    exists k: nat :: k < Count(c) && Inum(c, k) == 0
  }

  /** No entry is free and the directory cannot grow. */
  ghost predicate DirFull(c: seq<Byte>) {
    !HasBlank(c) && |c| + DIRENT > LIMIT
  }

  /** The blocks that one more entry in directory dp with contents c asks for. */
  ghost function EntryNeeds(own: Owners, dp: nat, c: seq<Byte>): nat {
    if HasBlank(c) then 0 else Lacks(own, dp, |c| / BSIZE)
  }

  lemma EntryWants(sb: Superblock, st: State, dp: nat, c: seq<Byte>, off: nat)
    requires Sound(sb, st) && dp < |st.inodes| && |c| == st.inodes[dp].size && off % DIRENT == 0 && off <= |c|
    requires if HasBlank(c) then off + DIRENT <= |c| else off == |c|
    ensures Wants(st.own, dp, off / BSIZE, EndBlock(off, DIRENT)) == EntryNeeds(st.own, dp, c)
  {
    hide Sound, HasBlank, Wants, Lacks;
    if HasBlank(c) {
      NothingWanted(sb, st, dp, off, DIRENT);
    } else {
      assert EndBlock(off, DIRENT) == off / BSIZE + 1;
      WantsOne(st.own, dp, off / BSIZE);
    }
  }

  /** The blocks logged when entry k of directory dp is written. */
  ghost function EntryLog(sb: Superblock, st: State, dp: nat, k: nat): set<nat>
    requires AllShaped(st.inodes) && dp < |st.inodes|
  {
    Bitmap(sb) + {InodeBlock(sb, dp)} + Spots(st, dp, k * DIRENT / BSIZE, EndBlock(k * DIRENT, DIRENT))
  }

  /**
   dirlink adds the name with the inode number, in the first free entry or at the end. It refuses exactly a
   name that is there already and a directory that is full, and dies exactly when the disk lacks the blocks it
   needs; otherwise the directory stays a map, changed at that name only.
   */
  method Dirlink(fs: Fs, dp: nat, t: seq<Byte>, inum: nat) returns (r: Linked, ghost k: nat)
    requires FsOk(fs.sb, fs.St()) && dp < |fs.inodes| && IsString(t) && 0 < inum < 0x1_0000
    requires fs.inodes[dp].kind == I_DIR && IsDir(Bytes(fs.sb, fs.St(), dp))
    modifies fs
    ensures r.Done? ==> FsOk(fs.sb, fs.St()) && |fs.inodes| == |old(fs.inodes)|
    ensures r.Done? ==> Lookup(old(Bytes(fs.sb, fs.St(), dp)), t) == 0
    ensures r.Done? ==> fs.inodes[dp] == old(fs.inodes)[dp].(size := fs.inodes[dp].size, addrs := fs.inodes[dp].addrs)
    ensures r.Done? ==>
              var c := old(Bytes(fs.sb, fs.St(), dp));
              && k <= Count(c) && (forall j: nat :: j < k ==> Inum(c, j) != 0) && (k < Count(c) ==> Inum(c, k) == 0)
              && Bytes(fs.sb, fs.St(), dp) == WithEntry(c, k, Entry(inum, t))
    ensures r.Done? ==> IsDir(Bytes(fs.sb, fs.St(), dp))
    ensures r.Done? ==>
              forall u: seq<Byte> ::
                  Lookup(Bytes(fs.sb, fs.St(), dp), u) == if Key(u) == Key(t) then inum
                                                          else Lookup(old(Bytes(fs.sb, fs.St(), dp)), u)
    ensures r.Done? ==> forall i: nat :: i < |fs.inodes| && i != dp ==>
              fs.inodes[i] == old(fs.inodes)[i] && Bytes(fs.sb, fs.St(), i) == old(Bytes(fs.sb, fs.St(), i))
    ensures r.Refused? <==> Lookup(old(Bytes(fs.sb, fs.St(), dp)), t) != 0 || DirFull(old(Bytes(fs.sb, fs.St(), dp)))
    ensures r.Refused? ==> fs.St() == old(fs.St()) && fs.logged == old(fs.logged)
    ensures r.Died? <==> !(Lookup(old(Bytes(fs.sb, fs.St(), dp)), t) != 0 || DirFull(old(Bytes(fs.sb, fs.St(), dp))))
                         && EntryNeeds(old(fs.own), dp, old(Bytes(fs.sb, fs.St(), dp))) > Room(fs.sb, old(fs.own))
    ensures r.Done? ==>
              Room(fs.sb, fs.own) + EntryNeeds(old(fs.own), dp, old(Bytes(fs.sb, fs.St(), dp)))
                == Room(fs.sb, old(fs.own))
    ensures r.Done? ==> OthersHold(old(fs.own), fs.own, dp)
    ensures r.Done? ==> Traced(old(fs.Tr()), fs.Tr(), EntryLog(fs.sb, fs.St(), dp, k))
  {
    hide Recorded, Backed, MapOk, Synced, NoHoles, FieldName, Key, Inum, NameAt, Spliced, ByteAt, Used, Wants, Lacks,
         Room, OthersHold, Traced, Spots, Bitmap;
    k := 0;
    SizeLimit(fs.sb, fs.St(), dp);
    var f := Dirlookup(fs, dp, t);
    if f.At? {
      return Linked.Refused, 0;
    }
    ghost var c := FileAt(fs.St(), dp);
    var off, size := 0, fs.inodes[dp].size;
    var free := false;
    while off < size && !free
      invariant off % DIRENT == 0 && off <= size && fs.St() == old(fs.St()) && fs.logged == old(fs.logged)
      invariant free ==> off < size && Inum(c, off / DIRENT) == 0
      invariant forall j: nat :: j < off / DIRENT ==> Inum(c, j) != 0
      decreases size - off, !free
    {
      var de := ReadEntry(fs, dp, off);
      if Inum(de, 0) == 0 {
        free := true;
      } else {
        off := off + DIRENT;
      }
    }
    var field := Strncpy(seq(DIRSIZ, _ => 0), t);
    var de := [inum % 0x100, inum / 0x100] + field;
    assert de == Entry(inum, t);
    k := off / DIRENT;
    LinkIsUpdate(c, off / DIRENT, inum, t);
    assert WithEntry(c, off / DIRENT, de) == Spliced(c, off, de);
    assert HasBlank(c) <==> off < size;
    EntryWants(fs.sb, fs.St(), dp, c, off);
    var w := Writei(fs, dp, off, de);
    if w.Refused? {
      return Linked.Refused, k;
    }
    if w.Panicked? {
      return Died, k;
    }
    return Done, k;
  }
}
