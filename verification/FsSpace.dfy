/**
 How many blocks are left and how many a write asks for (balloc and bmap in kernel/src/fs.c), in terms
 of who owns which block.
 */
module FsSpace {
  import opened FsLayout
  import opened FsState

  /** The data blocks nobody owns. */
  function Loose(sb: Superblock, own: Owners): set<nat>
    requires Fits(sb)
  {
    set b: nat | DataStart(sb) <= b < sb.size && b !in own
  }

  function Room(sb: Superblock, own: Owners): nat
    requires Fits(sb)
  {
    |Loose(sb, own)|
  }

  /** The blocks nobody owns are those whose bit in the bitmap is clear. */
  lemma LooseIsClear(sb: Superblock, st: State, b: nat)
    requires Owned(sb, st) && b < sb.size
    ensures b in Loose(sb, st.own) <==> !Used(sb, st.disk, b)
  {
    hide Recorded, Backed, Used;
  }

  lemma NoRoom(sb: Superblock, st: State)
    requires Owned(sb, st) && forall b: nat :: b < sb.size ==> Used(sb, st.disk, b)
    ensures Room(sb, st.own) == 0
  {
    hide Recorded, Backed, MapOk, Used;
    forall b: nat | b < sb.size ensures b !in Loose(sb, st.own) {
      LooseIsClear(sb, st, b);
    }
    assert Loose(sb, st.own) == {};
  }

  lemma OneLess(sb: Superblock, own: Owners, b: nat, p: Place)
    requires Fits(sb) && DataStart(sb) <= b < sb.size && b !in own
    ensures Room(sb, own[b := p]) + 1 == Room(sb, own)
  {
    assert Loose(sb, own) == Loose(sb, own[b := p]) + {b};
  }

  /** Place (i, s) holds a block. */
  ghost predicate Held(own: Owners, i: nat, s: nat) {
    exists b :: b in own && own[b] == Place(i, s)
  }

  lemma HeldIff(sb: Superblock, st: State, i: nat, s: nat)
    requires Owned(sb, st) && i < |st.inodes| && s < SLOTS
    ensures Held(st.own, i, s) <==> SlotVal(st.disk, st.inodes[i], s) != 0
  {
    hide SlotVal, MapOk;
    var b: nat := SlotVal(st.disk, st.inodes[i], s);
    if Held(st.own, i, s) {
      var c :| c in st.own && st.own[c] == Place(i, s);
    }
  }

  lemma HeldMore(own: Owners, b: nat, p: Place, i: nat, s: nat)
    requires b !in own
    ensures Held(own[b := p], i, s) <==> Held(own, i, s) || p == Place(i, s)
  {
    var more := own[b := p];
    if Held(own, i, s) {
      var c :| c in own && own[c] == Place(i, s);
      assert more[c] == Place(i, s);
    }
    assert more[b] == p;
  }

  /** The blocks that bmap allocates for block bn of inode i. */
  ghost function Lacks(own: Owners, i: nat, bn: nat): nat {
    (if bn >= NDIRECT && !Held(own, i, NDIRECT) then 1 else 0) + (if Held(own, i, Slot(bn)) then 0 else 1)
  }

  /** The places that are filled once block bn of an inode is mapped. */
  predicate Filled(bn: nat, s: nat) {
    s == Slot(bn) || (bn >= NDIRECT && s == NDIRECT)
  }

  /** From own to own' inode i got exactly the blocks that block bn of it lacked. */
  ghost predicate Took(sb: Superblock, own: Owners, own': Owners, i: nat, bn: nat)
    requires Fits(sb)
  {
    && Room(sb, own') + Lacks(own, i, bn) == Room(sb, own)
    && forall j: nat, s: nat {:trigger Held(own', j, s)} :: Held(own', j, s) <==>
         Held(own, j, s) || (j == i && Filled(bn, s))
  }

  /** The blocks that writing the blocks [lo, hi) of inode i allocates: each missing one, and the table once. */
  ghost function Wants(own: Owners, i: nat, lo: nat, hi: nat): nat
    decreases hi
  {
    if hi <= lo then 0
    else
      Wants(own, i, lo, hi - 1) + (if Held(own, i, Slot(hi - 1)) then 0 else 1)
      + if hi - 1 >= NDIRECT && !Held(own, i, NDIRECT) && (hi - 1 == lo || hi - 1 == NDIRECT) then 1 else 0
  }

  /** The blocks [lo, k) of inode i were taken, from own to own'. */
  ghost predicate Taken(sb: Superblock, own: Owners, own': Owners, i: nat, lo: nat, k: nat)
    requires Fits(sb)
  {
    && lo <= k && Room(sb, own') + Wants(own, i, lo, k) == Room(sb, own)
    && (forall bn: nat {:trigger Slot(bn)} :: bn >= k ==> (Held(own', i, Slot(bn)) <==> Held(own, i, Slot(bn))))
    && (Held(own', i, NDIRECT) <==> Held(own, i, NDIRECT) || (k > lo && k > NDIRECT))
    && OthersHold(own, own', i)
  }

  /** Every inode but i holds the places it held. */
  ghost predicate OthersHold(own: Owners, own': Owners, i: nat) {
    forall j: nat, s: nat {:trigger Held(own', j, s)} :: j != i ==> (Held(own', j, s) <==> Held(own, j, s))
  }

  lemma TakenNone(sb: Superblock, own: Owners, i: nat, lo: nat)
    requires Fits(sb)
    ensures Taken(sb, own, own, i, lo, lo)
  {
  }

  /** The next block costs what it lacks now. */
  lemma TakenNext(sb: Superblock, own: Owners, mid: Owners, own': Owners, i: nat, lo: nat, k: nat)
    requires Fits(sb) && Taken(sb, own, mid, i, lo, k)
    ensures Lacks(mid, i, k) <= Room(sb, mid) <==> Wants(own, i, lo, k + 1) <= Room(sb, own)
    ensures Took(sb, mid, own', i, k) ==> Taken(sb, own, own', i, lo, k + 1)
  {
    assert Held(mid, i, Slot(k)) <==> Held(own, i, Slot(k));
    assert Wants(own, i, lo, k + 1) == Wants(own, i, lo, k) + Lacks(mid, i, k);
    if Took(sb, mid, own', i, k) {
      forall bn: nat | bn >= k + 1 ensures Held(own', i, Slot(bn)) <==> Held(own, i, Slot(bn)) {
        assert !Filled(k, Slot(bn));
      }
      assert Filled(k, NDIRECT) <==> k >= NDIRECT;
    }
  }

  lemma {:induction false} WantsMore(own: Owners, i: nat, lo: nat, j: nat, k: nat)
    requires j <= k
    ensures Wants(own, i, lo, j) <= Wants(own, i, lo, k)
    decreases k
  {
    if j < k {
      WantsMore(own, i, lo, j, k - 1);
    }
  }

  lemma WantsOne(own: Owners, i: nat, bn: nat)
    ensures Wants(own, i, bn, bn + 1) == Lacks(own, i, bn)
  {
    assert Wants(own, i, bn, bn) == 0;
  }
}
