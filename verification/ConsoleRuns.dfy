/**
 The console over whole runs (kernel/src/console.c): keys and readers in any order. Which presses are
 erased is said in terms of the presses alone, and the committed input is exactly what was not erased.
 */
module ConsoleRuns {
  import opened Blocks
  import opened Console

  datatype Event = Press(c: Byte) | Consume

  /** Committed input, line, and how much of the input was consumed. */
  datatype Desk = Desk(hist: seq<Byte>, line: seq<Byte>, read: nat)

  predicate InBounds(d: Desk) {
    d.read <= |d.hist| && |d.hist| + |d.line| <= d.read + SIZE && NL !in d.line
  }

  /** The characters in the ring that nobody has consumed. */
  function Unread(d: Desk): nat
    requires InBounds(d)
  {
    |d.hist + d.line| - d.read
  }

  function React(d: Desk, e: Event): Desk
    requires InBounds(d)
  {
    match e
    case Press(c) => var (h, l) := Key(d.hist, d.line, Room(d.hist, d.line, d.read), c); Desk(h, l, d.read)
    case Consume => if d.read < |d.hist| then d.(read := d.read + 1) else d
  }

  ghost predicate IsRun(ds: seq<Desk>, es: seq<Event>) {
    && |ds| == |es| + 1 && ds[0] == Desk([], [], 0)
    && forall j: nat :: j < |es| ==> InBounds(ds[j]) && ds[j + 1] == React(ds[j], es[j])
  }

  lemma ReactKeeps(d: Desk, e: Event)
    requires InBounds(d)
    ensures InBounds(React(d, e)) && d.hist <= React(d, e).hist && d.read <= React(d, e).read
  {
  }

  /** Committed input only grows: what a reader got by time j is the committed input of any later time. */
  lemma {:induction false} NeverAltered(ds: seq<Desk>, es: seq<Event>, j: nat, k: nat)
    requires IsRun(ds, es) && j <= k <= |es|
    ensures InBounds(ds[k]) && ds[j].hist <= ds[k].hist && ds[j].read <= ds[k].read
    decreases k
  {
    hide React;
    if k > 0 {
      NeverAltered(ds, es, if j < k then j else k - 1, k - 1);
      ReactKeeps(ds[k - 1], es[k - 1]);
    }
  }

  // What the presses say.

  /** The character a press stands for. */
  function CharOf(e: Event): Byte {
    if e.Press? then if e.c == CR then NL else e.c else 0
  }

  predicate IsErase(e: Event) {
    e.Press? && (e.c == CTRL_H || e.c == DEL)
  }

  predicate IsKill(e: Event) {
    e.Press? && e.c == CTRL_U
  }

  /** Press j is a character, and the ring had room for it. */
  ghost predicate Typed(ds: seq<Desk>, es: seq<Event>, j: nat)
    requires IsRun(ds, es) && j < |es|
  {
    es[j].Press? && es[j].c !in {CTRL_P, CTRL_U, CTRL_H, DEL, 0} && Unread(ds[j]) < SIZE
  }

  /** Press j ends the line: a newline, control-D, or the character that fills the ring. */
  ghost predicate Commits(ds: seq<Desk>, es: seq<Event>, j: nat)
    requires IsRun(ds, es) && j < |es|
  {
    Typed(ds, es, j) && (CharOf(es[j]) == NL || CharOf(es[j]) == CTRL_D || Unread(ds[j]) == SIZE - 1)
  }

  /** Characters typed minus erasing keys among the events [a, b). */
  ghost function Balance(ds: seq<Desk>, es: seq<Event>, a: nat, b: nat): int
    requires IsRun(ds, es) && b <= |es|
    decreases b
  {
    if b <= a then 0
    else Balance(ds, es, a, b - 1) + if Typed(ds, es, b - 1) then 1 else if IsErase(es[b - 1]) then -1 else 0
  }

  /** Nothing that happened after press j and before k reached back to it. */
  ghost predicate Spares(ds: seq<Desk>, es: seq<Event>, j: nat, m: nat)
    requires IsRun(ds, es) && m < |es|
  {
    !Commits(ds, es, m) && !IsKill(es[m]) && Balance(ds, es, j + 1, m + 1) >= 0
  }

  /**
   Press j is on the line at time k: it was typed, the line has not ended since, no control-U came, and
   at no point had more been erased than was typed after it.
   */
  ghost predicate Survives(ds: seq<Desk>, es: seq<Event>, j: nat, k: nat)
    requires IsRun(ds, es) && k <= |es|
  {
    j < k && Typed(ds, es, j) && !Commits(ds, es, j) && forall m: nat :: j < m < k ==> Spares(ds, es, j, m)
  }

  /** Press j was delivered by time k: it ended a line, or was on the line when a later press ended it. */
  ghost predicate DeliveredAt(ds: seq<Desk>, es: seq<Event>, j: nat, i: nat)
    requires IsRun(ds, es) && i < |es|
  {
    Commits(ds, es, i) && (j == i || Survives(ds, es, j, i))
  }

  ghost predicate Delivered(ds: seq<Desk>, es: seq<Event>, j: nat, k: nat)
    requires IsRun(ds, es) && k <= |es|
  {
    exists i: nat :: i < k && DeliveredAt(ds, es, j, i)
  }

  // The presses behind the committed input and the line.

  ghost function LineTags(ds: seq<Desk>, es: seq<Event>, k: nat): seq<nat>
    requires IsRun(ds, es) && k <= |es|
  {
    if k == 0 then []
    else
      var l, j := LineTags(ds, es, k - 1), k - 1;
      if Commits(ds, es, j) || IsKill(es[j]) then []
      else if Typed(ds, es, j) then l + [j]
      else if IsErase(es[j]) && l != [] then l[..|l| - 1]
      else l
  }

  ghost function HistTags(ds: seq<Desk>, es: seq<Event>, k: nat): seq<nat>
    requires IsRun(ds, es) && k <= |es|
  {
    if k == 0 then []
    else if Commits(ds, es, k - 1) then HistTags(ds, es, k - 1) + LineTags(ds, es, k - 1) + [k - 1]
    else HistTags(ds, es, k - 1)
  }

  /** The characters of these presses, in this order. */
  ghost predicate Spells(es: seq<Event>, tags: seq<nat>, s: seq<Byte>) {
    |tags| == |s| && forall p: nat :: p < |s| ==> tags[p] < |es| && s[p] == CharOf(es[tags[p]])
  }

  predicate Rising(tags: seq<nat>) {
    forall p: nat, q: nat :: p < q < |tags| ==> tags[p] < tags[q]
  }

  /** What one event does, told by the presses. */
  lemma StepIs(ds: seq<Desk>, es: seq<Event>, k: nat)
    requires IsRun(ds, es) && k < |es|
    ensures var d, d', c := ds[k], ds[k + 1], CharOf(es[k]);
            if Commits(ds, es, k) then d'.hist == d.hist + d.line + [c] && d'.line == []
            else
              && d'.hist == d.hist
              && d'.line == if IsKill(es[k]) then [] else if Typed(ds, es, k) then d.line + [c]
                            else if IsErase(es[k]) && d.line != [] then d.line[..|d.line| - 1] else d.line
  {
    assert InBounds(ds[k]) && ds[k + 1] == React(ds[k], es[k]);
    hide IsRun;
  }

  lemma SpellsJoin(es: seq<Event>, a: seq<nat>, b: seq<nat>, s: seq<Byte>, t: seq<Byte>)
    requires Spells(es, a, s) && Spells(es, b, t)
    ensures Spells(es, a + b, s + t)
  {
  }

  lemma StepSpells(ds: seq<Desk>, es: seq<Event>, k: nat)
    requires IsRun(ds, es) && k < |es|
    requires Spells(es, HistTags(ds, es, k), ds[k].hist) && Spells(es, LineTags(ds, es, k), ds[k].line)
    ensures Spells(es, HistTags(ds, es, k + 1), ds[k + 1].hist) && Spells(es, LineTags(ds, es, k + 1), ds[k + 1].line)
  {
    StepIs(ds, es, k);
    var h, l, c := HistTags(ds, es, k), LineTags(ds, es, k), CharOf(es[k]);
    assert Spells(es, [k], [c]);
    SpellsJoin(es, h, l, ds[k].hist, ds[k].line);
    SpellsJoin(es, l, [k], ds[k].line, [c]);
    SpellsJoin(es, h + l, [k], ds[k].hist + ds[k].line, [c]);
    hide IsRun, CharOf, Typed, Commits, IsKill, IsErase;
  }

  lemma {:induction false} TagsSpell(ds: seq<Desk>, es: seq<Event>, k: nat)
    requires IsRun(ds, es) && k <= |es|
    ensures Spells(es, HistTags(ds, es, k), ds[k].hist) && Spells(es, LineTags(ds, es, k), ds[k].line)
  {
    if k > 0 {
      TagsSpell(ds, es, k - 1);
      StepSpells(ds, es, k - 1);
    }
  }

  ghost function AllTags(ds: seq<Desk>, es: seq<Event>, k: nat): seq<nat>
    requires IsRun(ds, es) && k <= |es|
  {
    HistTags(ds, es, k) + LineTags(ds, es, k)
  }

  /** An event adds itself at the end or takes something off the end. */
  lemma AllTagsNext(ds: seq<Desk>, es: seq<Event>, k: nat)
    requires IsRun(ds, es) && k < |es|
    ensures AllTags(ds, es, k + 1) == AllTags(ds, es, k) + [k] || AllTags(ds, es, k + 1) <= AllTags(ds, es, k)
  {
    hide IsRun, Typed, Commits, IsKill, IsErase;
    var h, l := HistTags(ds, es, k), LineTags(ds, es, k);
    assert h + l + [k] == h + (l + [k]) && h + l + [k] + [] == h + l + [k];
  }

  lemma {:induction false} TagsRise(ds: seq<Desk>, es: seq<Event>, k: nat)
    requires IsRun(ds, es) && k <= |es|
    ensures Rising(AllTags(ds, es, k)) && forall p: nat :: p < |AllTags(ds, es, k)| ==> AllTags(ds, es, k)[p] < k
  {
    if k > 0 {
      TagsRise(ds, es, k - 1);
      AllTagsNext(ds, es, k - 1);
    }
    hide IsRun, HistTags, LineTags;
  }

  /** Above each press on the line lie as many others as were typed and not erased since. */
  ghost predicate Stacked(ds: seq<Desk>, es: seq<Event>, k: nat, l: seq<nat>)
    requires IsRun(ds, es) && k <= |es|
  {
    && (forall p: nat :: p < |l| ==> Survives(ds, es, l[p], k) && Balance(ds, es, l[p] + 1, k) == |l| - 1 - p)
    && (forall j: nat :: Survives(ds, es, j, k) ==> j in l)
  }

  lemma SurvivesNext(ds: seq<Desk>, es: seq<Event>, j: nat, k: nat)
    requires IsRun(ds, es) && k < |es| && j < k
    ensures Survives(ds, es, j, k + 1) <==> Survives(ds, es, j, k) && Spares(ds, es, j, k)
  {
    hide Spares;
  }

  lemma StepStacked(ds: seq<Desk>, es: seq<Event>, k: nat)
    requires IsRun(ds, es) && k < |es| && Stacked(ds, es, k, LineTags(ds, es, k))
    ensures Stacked(ds, es, k + 1, LineTags(ds, es, k + 1))
  {
    hide IsRun;
    var l, l' := LineTags(ds, es, k), LineTags(ds, es, k + 1);
    forall p: nat | p < |l'|
      ensures Survives(ds, es, l'[p], k + 1) && Balance(ds, es, l'[p] + 1, k + 1) == |l'| - 1 - p
    {
      if l'[p] < k {
        assert l'[p] == l[p];
        SurvivesNext(ds, es, l[p], k);
      }
    }
    forall j: nat | Survives(ds, es, j, k + 1) ensures j in l' {
      if j < k {
        SurvivesNext(ds, es, j, k);
        var p: nat :| p < |l| && l[p] == j;
      }
    }
  }

  lemma {:induction false} LineIsSurvivors(ds: seq<Desk>, es: seq<Event>, k: nat)
    requires IsRun(ds, es) && k <= |es|
    ensures Stacked(ds, es, k, LineTags(ds, es, k))
  {
    if k > 0 {
      LineIsSurvivors(ds, es, k - 1);
      StepStacked(ds, es, k - 1);
    }
  }

  lemma {:induction false} HistIsDelivered(ds: seq<Desk>, es: seq<Event>, k: nat, j: nat)
    requires IsRun(ds, es) && k <= |es|
    ensures j in HistTags(ds, es, k) <==> Delivered(ds, es, j, k)
  {
    hide IsRun, Survives, Commits;
    if k > 0 {
      HistIsDelivered(ds, es, k - 1, j);
      LineIsSurvivors(ds, es, k - 1);
      assert Delivered(ds, es, j, k) <==> Delivered(ds, es, j, k - 1) || DeliveredAt(ds, es, j, k - 1);
    }
  }

  /**
   The committed input at any time of any run is, character by character and in the order of the
   presses, exactly the delivered ones.
   */
  lemma InputIsWhatSurvived(ds: seq<Desk>, es: seq<Event>, k: nat)
    requires IsRun(ds, es) && k <= |es|
    ensures exists tags: seq<nat> ::
              && Rising(tags) && Spells(es, tags, ds[k].hist)
              && forall j: nat :: j in tags <==> Delivered(ds, es, j, k)
  {
    var tags := HistTags(ds, es, k);
    TagsSpell(ds, es, k);
    TagsRise(ds, es, k);
    hide IsRun, HistTags, LineTags, Delivered;
    assert Rising(tags) by {
      forall p: nat, q: nat | p < q < |tags| ensures tags[p] < tags[q] {
        var all := AllTags(ds, es, k);
        assert all[p] < all[q];
      }
    }
    forall j: nat ensures j in tags <==> Delivered(ds, es, j, k) {
      HistIsDelivered(ds, es, k, j);
    }
  }

  /** Event i takes press j off the line: control-U, or an erasing key with nothing left above j. */
  ghost predicate Erases(ds: seq<Desk>, es: seq<Event>, i: nat, j: nat)
    requires IsRun(ds, es) && i < |es|
  {
    Survives(ds, es, j, i) && (IsKill(es[i]) || (IsErase(es[i]) && Balance(ds, es, j + 1, i) == 0))
  }

  /** An erased press is never delivered, at no later time of the run. */
  lemma ErasedNeverDelivered(ds: seq<Desk>, es: seq<Event>, j: nat, i: nat, k: nat)
    requires IsRun(ds, es) && i < |es| && k <= |es| && Erases(ds, es, i, j)
    ensures !Delivered(ds, es, j, k)
  {
    hide IsRun;
    forall n: nat | n < k ensures !DeliveredAt(ds, es, j, n) {
      if j < n < i {
        assert Spares(ds, es, j, n);
      } else if n > i {
        assert !Spares(ds, es, j, i);
      }
    }
  }

  /** A typed press is delivered, still on the line, or erased by an event of the run: none is lost. */
  lemma {:induction false} NoneLost(ds: seq<Desk>, es: seq<Event>, j: nat, k: nat)
    requires IsRun(ds, es) && j < k <= |es| && Typed(ds, es, j)
    ensures Delivered(ds, es, j, k) || Survives(ds, es, j, k) || exists i: nat :: j < i < k && Erases(ds, es, i, j)
  {
    hide IsRun;
    if j == k - 1 {
      assert Commits(ds, es, j) ==> DeliveredAt(ds, es, j, j);
    } else {
      NoneLost(ds, es, j, k - 1);
      var m := k - 1;
      if Delivered(ds, es, j, m) {
        var i: nat :| i < m && DeliveredAt(ds, es, j, i);
        assert i < k;
      } else if Survives(ds, es, j, m) {
        SurvivesNext(ds, es, j, m);
        LineIsSurvivors(ds, es, m);
        BalanceHolds(ds, es, j, m);
        assert Commits(ds, es, m) ==> DeliveredAt(ds, es, j, m);
        assert !Commits(ds, es, m) && !Spares(ds, es, j, m) ==> Erases(ds, es, m, j);
      }
    }
  }

  lemma BalanceHolds(ds: seq<Desk>, es: seq<Event>, j: nat, k: nat)
    requires IsRun(ds, es) && k <= |es| && Survives(ds, es, j, k) && Stacked(ds, es, k, LineTags(ds, es, k))
    ensures Balance(ds, es, j + 1, k) >= 0
  {
    hide IsRun, Survives;
    var l := LineTags(ds, es, k);
    var p: nat :| p < |l| && l[p] == j;
  }
}
