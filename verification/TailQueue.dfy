/**
  The tail queues of csf/include/queue.h.  A link field is a location: the tqh_first of a
  head or the tqe_next of an element.  Behind every location stands the address of another
  one: tqh_last, or tqe_prev, the address of the field that points here.
*/
module TailQueue {

  datatype Loc = Head(h: nat) | Next(e: nat)

  datatype Link = Nil | Ref(e: nat) | Unset

  datatype Option<T> = None | Some(value: T)

  predicate Distinct(s: seq<nat>) {
    forall i, j :: 0 <= i < j < |s| ==> s[i] != s[j]
  }

  /** The field that points to element `i`, or at the end of the queue. */
  function LocAt(h: nat, s: seq<nat>, i: nat): Loc
    requires i <= |s|
  {
    if i == 0 then Head(h) else Next(s[i - 1])
  }

  function LinkAt(s: seq<nat>, i: nat): Link {
    if i < |s| then Ref(s[i]) else Nil
  }

  /** The links of a queue. */
  ghost predicate Linked(cell: map<Loc, Link>, h: nat, s: seq<nat>) {
    forall i :: 0 <= i <= |s| ==> LocAt(h, s, i) in cell && cell[LocAt(h, s, i)] == LinkAt(s, i)
  }

  /** The addresses behind them. */
  ghost predicate Backed(back: map<Loc, Option<Loc>>, h: nat, s: seq<nat>) {
    && (forall i :: 0 <= i < |s| ==> Next(s[i]) in back && back[Next(s[i])] == Some(LocAt(h, s, i)))
    && Head(h) in back && back[Head(h)] == Some(LocAt(h, s, |s|))
  }

  /** The queue with head `h` holds `s`. */
  ghost predicate Rep(cell: map<Loc, Link>, back: map<Loc, Option<Loc>>, h: nat, s: seq<nat>) {
    Distinct(s) && Linked(cell, h, s) && Backed(back, h, s)
  }

  /** The location is one of the queue's own. */
  predicate Owns(h: nat, s: seq<nat>, l: Loc) {
    l == Head(h) || (l.Next? && l.e in s)
  }

  /** A queue none of whose fields is written stays as it is. */
  lemma Frame(cell: map<Loc, Link>, back: map<Loc, Option<Loc>>, cell': map<Loc, Link>, back': map<Loc, Option<Loc>>, h: nat, s: seq<nat>)
    requires Rep(cell, back, h, s)
    requires forall l :: Owns(h, s, l) && l in cell ==> l in cell' && cell'[l] == cell[l]
    requires forall l :: Owns(h, s, l) && l in back ==> l in back' && back'[l] == back[l]
    ensures Rep(cell', back', h, s)
  {
    forall i | 0 <= i <= |s| ensures Owns(h, s, LocAt(h, s, i)) {
    }
  }

  /** Every queue holds its list, and no element is in two. */
  ghost predicate All(cell: map<Loc, Link>, back: map<Loc, Option<Loc>>, lists: map<nat, seq<nat>>) {
    && (forall h :: h in lists ==> Rep(cell, back, h, lists[h]))
    && Apart(lists)
  }

  ghost predicate Apart(lists: map<nat, seq<nat>>) {
    forall g, h, e :: g in lists && h in lists && g != h && e in lists[g] ==> e !in lists[h]
  }

  ghost predicate InNone(lists: map<nat, seq<nat>>, e: nat) {
    forall h :: h in lists ==> e !in lists[h]
  }

  /** The field belongs to queue `h` or to an element that is in no queue. */
  ghost predicate Mine(lists: map<nat, seq<nat>>, h: nat, l: Loc) {
    forall g :: g in lists && g != h ==> !Owns(g, lists[g], l)
  }

  /** The fields of the other queues are as they were. */
  ghost predicate Untouched<T>(m: map<Loc, T>, m': map<Loc, T>, lists: map<nat, seq<nat>>, h: nat) {
    forall l :: l in m && !Mine(lists, h, l) ==> l in m' && m'[l] == m[l]
  }

  lemma OthersKept(cell: map<Loc, Link>, back: map<Loc, Option<Loc>>, cell': map<Loc, Link>, back': map<Loc, Option<Loc>>,
                   lists: map<nat, seq<nat>>, h: nat, g: nat)
    requires All(cell, back, lists) && g in lists && g != h
    requires Untouched(cell, cell', lists, h) && Untouched(back, back', lists, h)
    ensures Rep(cell', back', g, lists[g])
  {
    forall l | Owns(g, lists[g], l) ensures !Mine(lists, h, l) {
    }
    Frame(cell, back, cell', back', g, lists[g]);
  }

  /** One queue is changed, with its own fields and those of free elements. */
  lemma Changed(cell: map<Loc, Link>, back: map<Loc, Option<Loc>>, cell': map<Loc, Link>, back': map<Loc, Option<Loc>>,
                lists: map<nat, seq<nat>>, h: nat, s: seq<nat>)
    requires All(cell, back, lists) && Rep(cell', back', h, s)
    requires Untouched(cell, cell', lists, h) && Untouched(back, back', lists, h)
    requires forall e :: e in s ==> (h in lists && e in lists[h]) || InNone(lists, e)
    ensures All(cell', back', lists[h := s])
  {
    forall g | g in lists && g != h ensures Rep(cell', back', g, lists[g]) {
      OthersKept(cell, back, cell', back', lists, h, g);
    }
  }

  /** A write to a field of one's own. */
  lemma WriteMine<T>(m: map<Loc, T>, l: Loc, x: T, lists: map<nat, seq<nat>>, h: nat)
    requires Mine(lists, h, l)
    ensures Untouched(m, m[l := x], lists, h)
  {
  }

  lemma WriteBoth<T>(m: map<Loc, T>, l: Loc, x: T, l': Loc, x': T, lists: map<nat, seq<nat>>, h: nat)
    requires Mine(lists, h, l) && Mine(lists, h, l')
    ensures Untouched(m, m[l := x][l' := x'], lists, h)
  {
  }

  lemma OwnIsMine(lists: map<nat, seq<nat>>, h: nat, l: Loc)
    requires Apart(lists) && h in lists && (Owns(h, lists[h], l) || (l.Next? && InNone(lists, l.e)))
    ensures Mine(lists, h, l)
  {
  }

  class Queues {
    var cell: map<Loc, Link>
    var back: map<Loc, Option<Loc>>
    ghost var lists: map<nat, seq<nat>>

    ghost predicate Valid()
      reads this
    {
      All(cell, back, lists)
    }

    ghost predicate Free(e: nat)
      reads this
    {
      InNone(lists, e)
    }

    constructor ()
      ensures Valid() && lists == map[]
    {
      cell, back, lists := map[], map[], map[];
    }

    /** TAILQ_INIT of a new head. */
    method Init(h: nat)
      requires Valid() && h !in lists
      modifies this
      ensures Valid() && lists == old(lists)[h := []]
    {
      cell := cell[Head(h) := Nil];
      back := back[Head(h) := Some(Head(h))];
      Changed(old(cell), old(back), cell, back, lists, h, []);
      lists := lists[h := []];
    }

    /** TAILQ_INSERT_TAIL */
    method InsertTail(h: nat, e: nat)
      requires Valid() && h in lists && Free(e)
      modifies this
      ensures Valid() && lists == old(lists)[h := old(lists[h]) + [e]]
      ensures forall x :: x != e && old(Marked(x)) ==> Marked(x)
    {
      MarksAreOutside();
      var last := back[Head(h)].value;
      cell := cell[Next(e) := Nil];
      back := back[Next(e) := Some(last)];
      cell := cell[last := Ref(e)];
      back := back[Head(h) := Some(Next(e))];
      TailAll(old(cell), old(back), lists, h, e);
      lists := lists[h := lists[h] + [e]];
    }

    /** TAILQ_CONCAT */
    method Concat(h1: nat, h2: nat)
      requires Valid() && h1 in lists && h2 in lists && h1 != h2
      modifies this
      ensures Valid() && lists == old(lists)[h1 := old(lists[h1] + lists[h2])][h2 := []]
    {
      ghost var s, t := lists[h1], lists[h2];
      assert LocAt(h2, t, 0) == Head(h2);
      if cell[Head(h2)] != Nil {
        var last, first := back[Head(h1)].value, cell[Head(h2)].e;
        cell := cell[last := Ref(first)];
        back := back[Next(first) := Some(last)];
        back := back[Head(h1) := back[Head(h2)]];
        cell := cell[Head(h2) := Nil];
        back := back[Head(h2) := Some(Head(h2))];
        ConcatAll(old(cell), old(back), lists, h1, h2);
      } else {
        assert s + t == s;
      }
      lists := lists[h1 := s + t][h2 := []];
    }

    /** TAILQ_INSERT_BEFORE, without the head. */
    method InsertBefore(x: nat, e: nat, ghost h: nat, ghost i: nat)
      requires Valid() && h in lists && i < |lists[h]| && lists[h][i] == x && Free(e)
      modifies this
      ensures Valid() && lists == old(lists)[h := With(old(lists[h]), i, e)]
    {
      var p := back[Next(x)].value;
      back := back[Next(e) := Some(p)];
      cell := cell[Next(e) := Ref(x)];
      cell := cell[p := Ref(e)];
      back := back[Next(x) := Some(Next(e))];
      BeforeAll(old(cell), old(back), lists, h, e, i);
      lists := lists[h := With(lists[h], i, e)];
    }

    /** TAILQ_REMOVE */
    method Remove(h: nat, e: nat, ghost i: nat)
      requires Valid() && h in lists && i < |lists[h]| && lists[h][i] == e
      modifies this
      ensures Valid() && lists == old(lists)[h := Less(old(lists[h]), i)]
      ensures forall x :: old(Marked(x)) ==> Marked(x)
    {
      MarksAreOutside();
      assert LocAt(h, lists[h], i + 1) == Next(e);
      var p := back[Next(e)].value;
      if cell[Next(e)] != Nil {
        back := back[Next(cell[Next(e)].e) := Some(p)];
      } else {
        back := back[Head(h) := Some(p)];
      }
      cell := cell[p := cell[Next(e)]];
      RemoveAll(old(cell), old(back), lists, h, i);
      lists := lists[h := Less(lists[h], i)];
    }

    /** TAILQ_FIRST */
    method First(h: nat) returns (e: Link)
      requires Valid() && h in lists
      ensures e == if lists[h] == [] then Nil else Ref(lists[h][0])
    {
      assert LocAt(h, lists[h], 0) == Head(h);
      e := cell[Head(h)];
    }

    /** TAILQ_LAST: the entry tqh_last points into is read as if it were a head. */
    method Last(h: nat) returns (e: Link)
      requires Valid() && h in lists
      ensures e == if lists[h] == [] then Nil else Ref(lists[h][|lists[h]| - 1])
    {
      ghost var s := lists[h];
      var last := back[Head(h)].value;
      var p := back[last].value;
      assert p == if s == [] then LocAt(h, s, 0) else LocAt(h, s, |s| - 1);
      e := cell[p];
    }

    /** TAILQ_NEXT */
    method After(e: nat, ghost h: nat, ghost i: nat) returns (n: Link)
      requires Valid() && h in lists && i < |lists[h]| && lists[h][i] == e
      ensures n == if i + 1 < |lists[h]| then Ref(lists[h][i + 1]) else Nil
    {
      assert LocAt(h, lists[h], i + 1) == Next(e);
      n := cell[Next(e)];
    }

    /** TAILQ_FOREACH_SAFE with removals: the element to come is looked up before the current one
        is taken out. */
    method RemoveEach(h: nat, out: set<nat>)
      requires Valid() && h in lists
      modifies this
      ensures Valid() && lists == old(lists)[h := Keeping(old(lists[h]), out)]
    {
      ghost var was := lists;
      ghost var k := 0;
      var cur := First(h);
      ThinnedEnds(lists, h, out);
      while cur != Nil
        invariant Valid() && k <= |was[h]| && cur == LinkAt(was[h], k) && lists == Thinned(was, h, k, out)
        decreases |was[h]| - k
      {
        cur := RemoveOne(h, cur.e, out, was, k);
        k := k + 1;
      }
    }

    method RemoveOne(h: nat, e: nat, out: set<nat>, ghost was: map<nat, seq<nat>>, ghost k: nat) returns (next: Link)
      requires Valid() && h in was && k < |was[h]| && was[h][k] == e && lists == Thinned(was, h, k, out)
      modifies this
      ensures Valid() && next == LinkAt(was[h], k + 1) && lists == Thinned(was, h, k + 1, out)
    {
      HalfwayStep(was[h], k, out);
      SetAgain(was, h, Halfway(was[h], k, out), Halfway(was[h], k + 1, out));
      next := Visit(h, e, out, |Keeping(was[h][..k], out)|);
    }

    method Visit(h: nat, e: nat, out: set<nat>, ghost i: nat) returns (next: Link)
      requires Valid() && h in lists && i < |lists[h]| && lists[h][i] == e
      modifies this
      ensures Valid() && next == LinkAt(old(lists[h]), i + 1)
      ensures lists == if e in out then old(lists)[h := Less(old(lists[h]), i)] else old(lists)
    {
      next := After(e, h, i);
      if e in out {
        Remove(h, e, i);
      }
    }

    /** TAILQ_FOREACH_SAFE with TAILQ_REMOVE and TAILQ_INSERT_TAIL into another queue, which
        overwrites the link of the element it moves. */
    method MoveEach(h: nat, g: nat, out: set<nat>)
      requires Valid() && h in lists && g in lists && g != h
      modifies this
      ensures Valid() && lists == old(lists)[h := Keeping(old(lists[h]), out)][g := old(lists[g]) + Leaving(old(lists[h]), out)]
    {
      ghost var was := lists;
      ghost var k := 0;
      var cur := First(h);
      MovingEnds(lists, h, g, out);
      while cur != Nil
        invariant Valid() && k <= |was[h]| && cur == LinkAt(was[h], k) && lists == Moving(was, h, g, k, out)
        decreases |was[h]| - k
      {
        cur := MoveOne(h, g, cur.e, out, was, k);
        k := k + 1;
      }
    }

    method MoveOne(h: nat, g: nat, e: nat, out: set<nat>, ghost was: map<nat, seq<nat>>, ghost k: nat) returns (next: Link)
      requires Valid() && h in was && g in was && g != h && k < |was[h]| && was[h][k] == e && lists == Moving(was, h, g, k, out)
      modifies this
      ensures Valid() && next == LinkAt(was[h], k + 1) && lists == Moving(was, h, g, k + 1, out)
    {
      MovingStep(was, h, g, k, out);
      next := Shift(h, g, e, out, |Keeping(was[h][..k], out)|);
    }

    method Shift(h: nat, g: nat, e: nat, out: set<nat>, ghost i: nat) returns (next: Link)
      requires Valid() && h in lists && g in lists && g != h && i < |lists[h]| && lists[h][i] == e
      modifies this
      ensures Valid() && next == LinkAt(old(lists[h]), i + 1)
      ensures lists == if e in out then old(lists)[h := Less(old(lists[h]), i)][g := old(lists[g]) + [e]] else old(lists)
    {
      next := After(e, h, i);
      if e in out {
        LessFree(lists, h, i);
        Remove(h, e, i);
        InsertTail(g, e);
      }
    }

    /** TAILQ_ENTRY_INIT of an element that is in no queue. */
    method EntryInit(e: nat)
      requires Valid() && Free(e)
      modifies this`cell, this`back
      ensures Valid() && Marked(e)
      ensures forall x :: old(Marked(x)) ==> Marked(x)
    {
      cell := cell[Next(e) := Unset];
      back := back[Next(e) := None];
      forall h | h in lists ensures Rep(cell, back, h, lists[h]) {
        Frame(old(cell), old(back), cell, back, h, lists[h]);
      }
    }

    /** TAILQ_ENTRY_EMPTY */
    predicate Marked(e: nat)
      reads this
    {
      Next(e) in cell && Next(e) in back && cell[Next(e)] == Unset && back[Next(e)] == None
    }

    /** An entry that looks unused is in no queue. */
    lemma MarkedIsFree(e: nat)
      requires Valid() && Marked(e)
      ensures Free(e)
    {
      forall h, i | h in lists && 0 <= i < |lists[h]| ensures lists[h][i] != e {
        assert LocAt(h, lists[h], i + 1) == Next(lists[h][i]);
      }
    }

    lemma MarksAreOutside()
      requires Valid()
      ensures forall x, h :: Marked(x) && h in lists ==> x !in lists[h]
    {
      forall x | Marked(x) ensures Free(x) {
        MarkedIsFree(x);
      }
    }
  }

  lemma SetAgain(m: map<nat, seq<nat>>, h: nat, a: seq<nat>, b: seq<nat>)
    ensures m[h := a][h := b] == m[h := b]
    ensures h in m && m[h] == a ==> m[h := a] == m
  {
  }

  /** The elements not in `out`, in order. */
  function Keeping(s: seq<nat>, out: set<nat>): seq<nat> {
    if s == [] then [] else Keeping(s[..|s| - 1], out) + if s[|s| - 1] in out then [] else [s[|s| - 1]]
  }

  /** The queues when the iteration has come to element `k` of one of them. */
  ghost function Thinned(was: map<nat, seq<nat>>, h: nat, k: nat, out: set<nat>): map<nat, seq<nat>>
    requires h in was && k <= |was[h]|
  {
    was[h := Halfway(was[h], k, out)]
  }

  lemma ThinnedEnds(was: map<nat, seq<nat>>, h: nat, out: set<nat>)
    requires h in was
    ensures Thinned(was, h, 0, out) == was && Thinned(was, h, |was[h]|, out) == was[h := Keeping(was[h], out)]
  {
    HalfwayEnds(was[h], out);
  }

  /** The elements in `out`, in order. */
  function Leaving(s: seq<nat>, out: set<nat>): seq<nat> {
    if s == [] then [] else Leaving(s[..|s| - 1], out) + if s[|s| - 1] in out then [s[|s| - 1]] else []
  }

  /** The two queues when the iteration has come to element `k`. */
  ghost function Moving(was: map<nat, seq<nat>>, h: nat, g: nat, k: nat, out: set<nat>): map<nat, seq<nat>>
    requires h in was && g in was && k <= |was[h]|
  {
    was[h := Halfway(was[h], k, out)][g := was[g] + Leaving(was[h][..k], out)]
  }

  lemma MovingEnds(was: map<nat, seq<nat>>, h: nat, g: nat, out: set<nat>)
    requires h in was && g in was && h != g
    ensures Moving(was, h, g, 0, out) == was
    ensures Moving(was, h, g, |was[h]|, out) == was[h := Keeping(was[h], out)][g := was[g] + Leaving(was[h], out)]
  {
    HalfwayEnds(was[h], out);
    assert was[h][..0] == [] && was[h][..|was[h]|] == was[h] && was[g] + [] == was[g];
  }

  lemma MovingStep(was: map<nat, seq<nat>>, h: nat, g: nat, k: nat, out: set<nat>)
    requires h in was && g in was && h != g && k < |was[h]|
    ensures var m, s, i := Moving(was, h, g, k, out), was[h], |Keeping(was[h][..k], out)|;
      && i < |m[h]| && m[h][i] == s[k] && LinkAt(m[h], i + 1) == LinkAt(s, k + 1)
      && Moving(was, h, g, k + 1, out) == if s[k] in out then m[h := Less(m[h], i)][g := m[g] + [s[k]]] else m
  {
    var s, t, left := was[h], was[g], Leaving(was[h][..k], out);
    HalfwayStep(s, k, out);
    assert s[..k + 1][..k] == s[..k];
    assert t + Leaving(s[..k + 1], out) == if s[k] in out then t + left + [s[k]] else t + left;
    SetBoth(was, h, g, Halfway(s, k, out), t + left, Halfway(s, k + 1, out), t + Leaving(s[..k + 1], out));
  }

  lemma SetBoth(m: map<nat, seq<nat>>, h: nat, g: nat, a: seq<nat>, b: seq<nat>, a': seq<nat>, b': seq<nat>)
    requires h != g
    ensures m[h := a][g := b][h := a'][g := b'] == m[h := a'][g := b']
  {
  }

  /** An element that is taken out of its queue is in none. */
  lemma LessFree(lists: map<nat, seq<nat>>, h: nat, i: nat)
    requires Apart(lists) && h in lists && Distinct(lists[h]) && i < |lists[h]|
    ensures InNone(lists[h := Less(lists[h], i)], lists[h][i])
  {
    var s := lists[h];
    assert s[i] !in s[..i] && s[i] !in s[i + 1..];
  }

  /** The queue when the iteration has come to element `k`. */
  function Halfway(s: seq<nat>, k: nat, out: set<nat>): seq<nat>
    requires k <= |s|
  {
    Keeping(s[..k], out) + s[k..]
  }

  lemma HalfwayEnds(s: seq<nat>, out: set<nat>)
    ensures Halfway(s, 0, out) == s && Halfway(s, |s|, out) == Keeping(s, out)
  {
    assert s[..|s|] == s && Keeping(s[..0], out) == [];
  }

  lemma {:induction false} HalfwayStep(s: seq<nat>, k: nat, out: set<nat>)
    requires k < |s|
    ensures var i := |Keeping(s[..k], out)|; var t := Halfway(s, k, out);
      && i < |t| && t[i] == s[k] && LinkAt(t, i + 1) == LinkAt(s, k + 1)
      && Halfway(s, k + 1, out) == if s[k] in out then Less(t, i) else t
  {
    var kept := Keeping(s[..k], out);
    assert s[..k + 1][..k] == s[..k] && s[k..] == [s[k]] + s[k + 1..];
    assert (kept + s[k..])[..|kept|] == kept && (kept + s[k..])[|kept| + 1..] == s[k + 1..];
  }

  /** Different places of a queue are different fields. */
  lemma LocsDiffer(h: nat, s: seq<nat>, i: nat, j: nat)
    requires Distinct(s) && i < j <= |s|
    ensures LocAt(h, s, i) != LocAt(h, s, j)
  {
  }

  lemma TailLinked(cell: map<Loc, Link>, h: nat, s: seq<nat>, e: nat)
    requires Linked(cell, h, s) && Distinct(s) && e !in s
    ensures Linked(cell[Next(e) := Nil][LocAt(h, s, |s|) := Ref(e)], h, s + [e])
  {
    var s', cell' := s + [e], cell[Next(e) := Nil][LocAt(h, s, |s|) := Ref(e)];
    forall i | 0 <= i <= |s'| ensures LocAt(h, s', i) in cell' && cell'[LocAt(h, s', i)] == LinkAt(s', i) {
      if i <= |s| {
        assert LocAt(h, s', i) == LocAt(h, s, i);
        if i < |s| {
          LocsDiffer(h, s, i, |s|);
        }
      } else {
        assert LocAt(h, s', i) == Next(e);
      }
    }
  }

  lemma TailBacked(back: map<Loc, Option<Loc>>, h: nat, s: seq<nat>, e: nat)
    requires Backed(back, h, s) && e !in s
    ensures Backed(back[Next(e) := Some(LocAt(h, s, |s|))][Head(h) := Some(Next(e))], h, s + [e])
  {
    var s', back' := s + [e], back[Next(e) := Some(LocAt(h, s, |s|))][Head(h) := Some(Next(e))];
    forall i | 0 <= i < |s'| ensures Next(s'[i]) in back' && back'[Next(s'[i])] == Some(LocAt(h, s', i)) {
      assert LocAt(h, s', i) == LocAt(h, s, i);
      if i < |s| {
        assert s'[i] == s[i] && s[i] in s;
      }
    }
  }

  lemma TailRep(cell: map<Loc, Link>, back: map<Loc, Option<Loc>>, h: nat, s: seq<nat>, e: nat)
    requires Rep(cell, back, h, s) && e !in s
    ensures var last := LocAt(h, s, |s|);
      Rep(cell[Next(e) := Nil][last := Ref(e)], back[Next(e) := Some(last)][Head(h) := Some(Next(e))], h, s + [e])
  {
    TailLinked(cell, h, s, e);
    TailBacked(back, h, s, e);
  }

  // TAILQ_CONCAT

  lemma ConcatLinked(cell: map<Loc, Link>, h1: nat, s: seq<nat>, h2: nat, t: seq<nat>)
    requires Linked(cell, h1, s) && Linked(cell, h2, t) && h1 != h2 && t != [] && Distinct(s) && Distinct(t)
    requires forall e :: e in s ==> e !in t
    ensures Linked(cell[LocAt(h1, s, |s|) := Ref(t[0])][Head(h2) := Nil], h1, s + t)
  {
    var u := s + t;
    var cell' := cell[LocAt(h1, s, |s|) := Ref(t[0])][Head(h2) := Nil];
    forall i | 0 <= i <= |u| ensures LocAt(h1, u, i) in cell' && cell'[LocAt(h1, u, i)] == LinkAt(u, i) {
      if i < |s| {
        assert LocAt(h1, u, i) == LocAt(h1, s, i);
        LocsDiffer(h1, s, i, |s|);
      } else if i == |s| {
        assert LocAt(h1, u, i) == LocAt(h1, s, i);
      } else {
        assert LocAt(h1, u, i) == LocAt(h2, t, i - |s|);
        assert t[i - |s| - 1] in t;
      }
    }
  }

  lemma ConcatBackedAt(back: map<Loc, Option<Loc>>, h1: nat, s: seq<nat>, h2: nat, t: seq<nat>, i: nat)
    requires Backed(back, h1, s) && Backed(back, h2, t) && t != [] && Distinct(t) && i < |s| + |t|
    requires forall e :: e in s ==> e !in t
    ensures var u, back' := s + t, back[Next(t[0]) := Some(LocAt(h1, s, |s|))];
      Next(u[i]) in back' && back'[Next(u[i])] == Some(LocAt(h1, u, i))
  {
    var u := s + t;
    if i < |s| {
      assert u[i] == s[i] && s[i] in s && t[0] in t && LocAt(h1, u, i) == LocAt(h1, s, i);
    } else {
      assert u[i] == t[i - |s|];
      if i > |s| {
        assert LocAt(h1, u, i) == LocAt(h2, t, i - |s|) && t[0] != t[i - |s|];
      }
    }
  }

  lemma ConcatBacked(back: map<Loc, Option<Loc>>, h1: nat, s: seq<nat>, h2: nat, t: seq<nat>)
    requires Backed(back, h1, s) && Backed(back, h2, t) && h1 != h2 && t != [] && Distinct(t)
    requires forall e :: e in s ==> e !in t
    ensures var last := LocAt(h1, s, |s|);
      Backed(back[Next(t[0]) := Some(last)][Head(h1) := Some(LocAt(h2, t, |t|))][Head(h2) := Some(Head(h2))], h1, s + t)
  {
    ConcatEntries(back, h1, s, h2, t);
    ConcatEnd(h1, s, h2, t);
    HeadsBacked(back[Next(t[0]) := Some(LocAt(h1, s, |s|))], h1, s + t, h2);
  }

  /** The addresses behind the elements of a queue. */
  ghost predicate EntriesBacked(back: map<Loc, Option<Loc>>, h: nat, s: seq<nat>) {
    forall i :: 0 <= i < |s| ==> Next(s[i]) in back && back[Next(s[i])] == Some(LocAt(h, s, i))
  }

  lemma ConcatEntries(back: map<Loc, Option<Loc>>, h1: nat, s: seq<nat>, h2: nat, t: seq<nat>)
    requires Backed(back, h1, s) && Backed(back, h2, t) && t != [] && Distinct(t)
    requires forall e :: e in s ==> e !in t
    ensures EntriesBacked(back[Next(t[0]) := Some(LocAt(h1, s, |s|))], h1, s + t)
  {
    var u, back' := s + t, back[Next(t[0]) := Some(LocAt(h1, s, |s|))];
    forall i | 0 <= i < |u| ensures Next(u[i]) in back' && back'[Next(u[i])] == Some(LocAt(h1, u, i)) {
      ConcatBackedAt(back, h1, s, h2, t, i);
    }
  }

  lemma ConcatEnd(h1: nat, s: seq<nat>, h2: nat, t: seq<nat>)
    requires t != []
    ensures LocAt(h1, s + t, |s + t|) == LocAt(h2, t, |t|)
  {
  }

  lemma HeadsBacked(back: map<Loc, Option<Loc>>, h: nat, s: seq<nat>, g: nat)
    requires h != g && EntriesBacked(back, h, s)
    ensures Backed(back[Head(h) := Some(LocAt(h, s, |s|))][Head(g) := Some(Head(g))], h, s)
  {
  }

  lemma ConcatDistinct(s: seq<nat>, t: seq<nat>)
    requires Distinct(s) && Distinct(t) && forall e :: e in s ==> e !in t
    ensures Distinct(s + t)
  {
    assert forall i :: 0 <= i < |t| ==> t[i] in t;
  }

  lemma ConcatRep(cell: map<Loc, Link>, back: map<Loc, Option<Loc>>, h1: nat, s: seq<nat>, h2: nat, t: seq<nat>)
    requires Rep(cell, back, h1, s) && Rep(cell, back, h2, t) && h1 != h2 && t != [] && forall e :: e in s ==> e !in t
    ensures var last := LocAt(h1, s, |s|);
      var cell' := cell[last := Ref(t[0])][Head(h2) := Nil];
      var back' := back[Next(t[0]) := Some(last)][Head(h1) := Some(LocAt(h2, t, |t|))][Head(h2) := Some(Head(h2))];
      Rep(cell', back', h1, s + t) && Rep(cell', back', h2, [])
  {
    ConcatLinked(cell, h1, s, h2, t);
    ConcatBacked(back, h1, s, h2, t);
    ConcatDistinct(s, t);
  }

  // TAILQ_INSERT_BEFORE

  function With(s: seq<nat>, i: nat, e: nat): seq<nat>
    requires i <= |s|
  {
    s[..i] + [e] + s[i..]
  }

  lemma WithMembers(s: seq<nat>, i: nat, e: nat)
    requires i <= |s|
    ensures forall y :: y in With(s, i, e) ==> y == e || y in s
  {
  }

  lemma WithLoc(h: nat, s: seq<nat>, i: nat, e: nat, j: nat)
    requires i <= |s| && j <= |s| + 1
    ensures LocAt(h, With(s, i, e), j) == if j <= i then LocAt(h, s, j) else if j == i + 1 then Next(e) else LocAt(h, s, j - 1)
    ensures LinkAt(With(s, i, e), j) == if j < i then LinkAt(s, j) else if j == i then Ref(e) else LinkAt(s, j - 1)
  {
  }

  lemma BeforeLinked(cell: map<Loc, Link>, h: nat, s: seq<nat>, e: nat, i: nat)
    requires Linked(cell, h, s) && Distinct(s) && e !in s && i < |s|
    ensures Linked(cell[Next(e) := Ref(s[i])][LocAt(h, s, i) := Ref(e)], h, With(s, i, e))
  {
    var s', cell' := With(s, i, e), cell[Next(e) := Ref(s[i])][LocAt(h, s, i) := Ref(e)];
    forall j | 0 <= j <= |s'| ensures LocAt(h, s', j) in cell' && cell'[LocAt(h, s', j)] == LinkAt(s', j) {
      WithLoc(h, s, i, e, j);
      if j < i {
        LocsDiffer(h, s, j, i);
      } else if j > i + 1 {
        LocsDiffer(h, s, i, j - 1);
      }
    }
  }

  lemma BeforeBackedAt(back: map<Loc, Option<Loc>>, h: nat, s: seq<nat>, e: nat, i: nat, j: nat)
    requires Backed(back, h, s) && Distinct(s) && e !in s && i < |s| && j <= |s|
    ensures var s', back' := With(s, i, e), back[Next(e) := Some(LocAt(h, s, i))][Next(s[i]) := Some(Next(e))];
      Next(s'[j]) in back' && back'[Next(s'[j])] == Some(LocAt(h, s', j))
  {
    var s' := With(s, i, e);
    WithLoc(h, s, i, e, j);
    if j < i {
      assert s'[j] == s[j] && s[j] != s[i] && s[j] in s;
    } else if j > i + 1 {
      assert s'[j] == s[j - 1] && s[i] != s[j - 1] && s[j - 1] in s;
    } else if j == i + 1 {
      assert s'[j] == s[i];
    } else {
      assert s'[j] == e && s[i] in s;
    }
  }

  lemma BeforeBacked(back: map<Loc, Option<Loc>>, h: nat, s: seq<nat>, e: nat, i: nat)
    requires Backed(back, h, s) && Distinct(s) && e !in s && i < |s|
    ensures Backed(back[Next(e) := Some(LocAt(h, s, i))][Next(s[i]) := Some(Next(e))], h, With(s, i, e))
  {
    var s', back' := With(s, i, e), back[Next(e) := Some(LocAt(h, s, i))][Next(s[i]) := Some(Next(e))];
    forall j | 0 <= j < |s'| ensures Next(s'[j]) in back' && back'[Next(s'[j])] == Some(LocAt(h, s', j)) {
      BeforeBackedAt(back, h, s, e, i, j);
    }
    WithLoc(h, s, i, e, |s'|);
  }

  lemma BeforeRep(cell: map<Loc, Link>, back: map<Loc, Option<Loc>>, h: nat, s: seq<nat>, e: nat, i: nat)
    requires Rep(cell, back, h, s) && e !in s && i < |s|
    ensures var p := LocAt(h, s, i);
      Rep(cell[Next(e) := Ref(s[i])][p := Ref(e)], back[Next(e) := Some(p)][Next(s[i]) := Some(Next(e))], h, With(s, i, e))
  {
    BeforeLinked(cell, h, s, e, i);
    BeforeBacked(back, h, s, e, i);
  }

  // TAILQ_REMOVE

  function Less(s: seq<nat>, i: nat): seq<nat>
    requires i < |s|
  {
    s[..i] + s[i + 1..]
  }

  lemma LessLoc(h: nat, s: seq<nat>, i: nat, j: nat)
    requires i < |s| && j < |s|
    ensures LocAt(h, Less(s, i), j) == if j <= i then LocAt(h, s, j) else LocAt(h, s, j + 1)
    ensures LinkAt(Less(s, i), j) == if j < i then LinkAt(s, j) else LinkAt(s, j + 1)
  {
  }

  lemma RemoveLinked(cell: map<Loc, Link>, h: nat, s: seq<nat>, i: nat)
    requires Linked(cell, h, s) && Distinct(s) && i < |s|
    ensures Linked(cell[LocAt(h, s, i) := LinkAt(s, i + 1)], h, Less(s, i))
  {
    var s', cell' := Less(s, i), cell[LocAt(h, s, i) := LinkAt(s, i + 1)];
    forall j | 0 <= j <= |s'| ensures LocAt(h, s', j) in cell' && cell'[LocAt(h, s', j)] == LinkAt(s', j) {
      LessLoc(h, s, i, j);
      if j < i {
        LocsDiffer(h, s, j, i);
      } else if j > i {
        LocsDiffer(h, s, i, j + 1);
      }
    }
  }

  lemma RemoveBackedAt(back: map<Loc, Option<Loc>>, h: nat, s: seq<nat>, i: nat, j: nat)
    requires Backed(back, h, s) && Distinct(s) && i < |s| && j < |s| - 1
    ensures var s', back' := Less(s, i), back[if i + 1 < |s| then Next(s[i + 1]) else Head(h) := Some(LocAt(h, s, i))];
      Next(s'[j]) in back' && back'[Next(s'[j])] == Some(LocAt(h, s', j))
  {
    LessLoc(h, s, i, j);
    if j < i {
      assert Less(s, i)[j] == s[j];
      assert i + 1 < |s| ==> s[j] != s[i + 1];
    } else {
      assert Less(s, i)[j] == s[j + 1];
      assert j > i ==> s[i + 1] != s[j + 1];
    }
  }

  lemma RemoveBacked(back: map<Loc, Option<Loc>>, h: nat, s: seq<nat>, i: nat)
    requires Backed(back, h, s) && Distinct(s) && i < |s|
    ensures Backed(back[if i + 1 < |s| then Next(s[i + 1]) else Head(h) := Some(LocAt(h, s, i))], h, Less(s, i))
  {
    var s', back' := Less(s, i), back[if i + 1 < |s| then Next(s[i + 1]) else Head(h) := Some(LocAt(h, s, i))];
    forall j | 0 <= j < |s'| ensures Next(s'[j]) in back' && back'[Next(s'[j])] == Some(LocAt(h, s', j)) {
      RemoveBackedAt(back, h, s, i, j);
    }
    LessLoc(h, s, i, |s'|);
  }

  lemma RemoveRep(cell: map<Loc, Link>, back: map<Loc, Option<Loc>>, h: nat, s: seq<nat>, i: nat)
    requires Rep(cell, back, h, s) && i < |s|
    ensures var p, n := LocAt(h, s, i), if i + 1 < |s| then Next(s[i + 1]) else Head(h);
      Rep(cell[p := LinkAt(s, i + 1)], back[n := Some(p)], h, Less(s, i))
  {
    RemoveLinked(cell, h, s, i);
    RemoveBacked(back, h, s, i);
  }

  // ------------------------------------------------------------- with all the queues

  lemma TailAll(cell: map<Loc, Link>, back: map<Loc, Option<Loc>>, lists: map<nat, seq<nat>>, h: nat, e: nat)
    requires All(cell, back, lists) && h in lists && InNone(lists, e)
    ensures var last := LocAt(h, lists[h], |lists[h]|);
      All(cell[Next(e) := Nil][last := Ref(e)], back[Next(e) := Some(last)][Head(h) := Some(Next(e))], lists[h := lists[h] + [e]])
  {
    var last := LocAt(h, lists[h], |lists[h]|);
    var cell', back' := cell[Next(e) := Nil][last := Ref(e)], back[Next(e) := Some(last)][Head(h) := Some(Next(e))];
    TailRep(cell, back, h, lists[h], e);
    OwnIsMine(lists, h, last);
    OwnIsMine(lists, h, Next(e));
    OwnIsMine(lists, h, Head(h));
    Changed(cell, back, cell', back', lists, h, lists[h] + [e]);
  }

  /** The writes of TAILQ_INSERT_TAIL. */
  function TailCell(cell: map<Loc, Link>, h: nat, t: seq<nat>, e: nat): map<Loc, Link> {
    cell[Next(e) := Nil][LocAt(h, t, |t|) := Ref(e)]
  }

  function TailBack(back: map<Loc, Option<Loc>>, h: nat, t: seq<nat>, e: nat): map<Loc, Option<Loc>> {
    back[Next(e) := Some(LocAt(h, t, |t|))][Head(h) := Some(Next(e))]
  }

  /** TAILQ_INSERT_TAIL of an element that is in another queue: a walk of that queue ends at the element
      and loses exactly what is behind it, while a walk of the new queue is as it should be. */
  lemma InsertedTwice(cell: map<Loc, Link>, back: map<Loc, Option<Loc>>, lists: map<nat, seq<nat>>, h: nat, g: nat, i: nat)
    requires All(cell, back, lists) && h in lists && g in lists && h != g && i < |lists[g]|
    ensures var e := lists[g][i];
      && Linked(TailCell(cell, h, lists[h], e), g, lists[g][..i + 1])
      && Linked(TailCell(cell, h, lists[h], e), h, lists[h] + [e])
      && !Rep(TailCell(cell, h, lists[h], e), TailBack(back, h, lists[h], e), g, lists[g])
  {
    var s, t, e := lists[g], lists[h], lists[g][i];
    TailLinked(cell, h, t, e);
    NotOwned(lists, h, g, LocAt(h, t, |t|));
    CutLinked(cell, g, s, i, LocAt(h, t, |t|), Ref(e));
    assert Owns(g, s, LocAt(g, s, i)) && TailBack(back, h, t, e)[Next(s[i])] == Some(LocAt(h, t, |t|));
  }

  lemma CutLinked(cell: map<Loc, Link>, g: nat, s: seq<nat>, i: nat, other: Loc, x: Link)
    requires Linked(cell, g, s) && Distinct(s) && i < |s| && !Owns(g, s, other)
    ensures Linked(cell[Next(s[i]) := Nil][other := x], g, s[..i + 1])
  {
    var s', cell' := s[..i + 1], cell[Next(s[i]) := Nil][other := x];
    forall j | 0 <= j <= |s'| ensures LocAt(g, s', j) in cell' && cell'[LocAt(g, s', j)] == LinkAt(s', j) {
      assert LocAt(g, s', j) == LocAt(g, s, j) && Owns(g, s, LocAt(g, s, j));
      if j <= i {
        LocsDiffer(g, s, j, i + 1);
      }
    }
  }

  /** TAILQ_REMOVE of the element from the first queue then takes it out of the second: a walk of the first
      still ends with it, a walk of the second does not meet it, and the end of the first queue is said to be
      in the second. */
  lemma RemovedElsewhere(cell: map<Loc, Link>, back: map<Loc, Option<Loc>>, lists: map<nat, seq<nat>>, h: nat, g: nat, i: nat)
    requires All(cell, back, lists) && h in lists && g in lists && h != g && i < |lists[g]|
    ensures var e := lists[g][i];
      var cell', back' := TailCell(cell, h, lists[h], e), TailBack(back, h, lists[h], e);
      && cell'[Next(e)] == Nil && back'[Next(e)].Some?
      && var p := back'[Next(e)].value; var cell'', back'' := cell'[p := cell'[Next(e)]], back'[Head(g) := Some(p)];
      && Linked(cell'', g, lists[g][..i + 1]) && Linked(cell'', h, lists[h])
      && back''[Head(g)] == Some(LocAt(h, lists[h], |lists[h]|))
  {
    var s, t, e := lists[g], lists[h], lists[g][i];
    var last := LocAt(h, t, |t|);
    NotOwned(lists, h, g, last);
    assert Owns(g, s, Next(e));
    var cell' := TailCell(cell, h, t, e);
    assert cell'[last := Nil] == cell[Next(e) := Nil][last := Nil];
    CutLinked(cell, g, s, i, last, Nil);
    NotOwned(lists, g, h, Next(e));
    StillLinked(cell, h, t, Next(e));
  }

  lemma StillLinked(cell: map<Loc, Link>, h: nat, t: seq<nat>, other: Loc)
    requires Linked(cell, h, t) && !Owns(h, t, other)
    ensures Linked(cell[other := Nil][LocAt(h, t, |t|) := Nil], h, t)
  {
    var cell' := cell[other := Nil][LocAt(h, t, |t|) := Nil];
    forall j | 0 <= j <= |t| ensures LocAt(h, t, j) in cell' && cell'[LocAt(h, t, j)] == LinkAt(t, j) {
      assert Owns(h, t, LocAt(h, t, j));
    }
  }

  lemma BeforeAll(cell: map<Loc, Link>, back: map<Loc, Option<Loc>>, lists: map<nat, seq<nat>>, h: nat, e: nat, i: nat)
    requires All(cell, back, lists) && h in lists && InNone(lists, e) && i < |lists[h]|
    ensures var p, x := LocAt(h, lists[h], i), lists[h][i];
      All(cell[Next(e) := Ref(x)][p := Ref(e)], back[Next(e) := Some(p)][Next(x) := Some(Next(e))], lists[h := With(lists[h], i, e)])
  {
    var p, x := LocAt(h, lists[h], i), lists[h][i];
    var cell', back' := cell[Next(e) := Ref(x)][p := Ref(e)], back[Next(e) := Some(p)][Next(x) := Some(Next(e))];
    BeforeRep(cell, back, h, lists[h], e, i);
    OwnIsMine(lists, h, p);
    OwnIsMine(lists, h, Next(e));
    OwnIsMine(lists, h, Next(x));
    WriteBoth(cell, Next(e), Ref(x), p, Ref(e), lists, h);
    WriteBoth(back, Next(e), Some(p), Next(x), Some(Next(e)), lists, h);
    WithMembers(lists[h], i, e);
    Changed(cell, back, cell', back', lists, h, With(lists[h], i, e));
  }

  lemma RemoveAll(cell: map<Loc, Link>, back: map<Loc, Option<Loc>>, lists: map<nat, seq<nat>>, h: nat, i: nat)
    requires All(cell, back, lists) && h in lists && i < |lists[h]|
    ensures var s := lists[h]; var p, n := LocAt(h, s, i), if i + 1 < |s| then Next(s[i + 1]) else Head(h);
      All(cell[p := LinkAt(s, i + 1)], back[n := Some(p)], lists[h := Less(s, i)])
  {
    var s := lists[h];
    var p, n := LocAt(h, s, i), if i + 1 < |s| then Next(s[i + 1]) else Head(h);
    RemoveRep(cell, back, h, s, i);
    OwnIsMine(lists, h, p);
    OwnIsMine(lists, h, n);
    WriteMine(cell, p, LinkAt(s, i + 1), lists, h);
    WriteMine(back, n, Some(p), lists, h);
    assert forall x :: x in Less(s, i) ==> x in s;
    Changed(cell, back, cell[p := LinkAt(s, i + 1)], back[n := Some(p)], lists, h, Less(s, i));
  }

  lemma ConcatApart(lists: map<nat, seq<nat>>, h1: nat, h2: nat)
    requires Apart(lists) && h1 in lists && h2 in lists && h1 != h2
    ensures Apart(lists[h1 := lists[h1] + lists[h2]][h2 := []])
  {
  }

  lemma NotOwned(lists: map<nat, seq<nat>>, h: nat, g: nat, l: Loc)
    requires Apart(lists) && h in lists && g in lists && g != h && Owns(h, lists[h], l)
    ensures !Owns(g, lists[g], l)
  {
  }

  lemma FrameFour(cell: map<Loc, Link>, back: map<Loc, Option<Loc>>, g: nat, s: seq<nat>, a: Loc, b: Loc, c: Loc, d: Loc,
                  x: Link, y: Link, u: Option<Loc>, v: Option<Loc>, w: Option<Loc>)
    requires Rep(cell, back, g, s) && !Owns(g, s, a) && !Owns(g, s, b) && !Owns(g, s, c) && !Owns(g, s, d)
    ensures Rep(cell[a := x][d := y], back[b := u][c := v][d := w], g, s)
  {
    FrameOne(cell, back, g, s, a, x, b, u);
    FrameOne(cell[a := x], back[b := u], g, s, d, y, c, v);
    FrameOne(cell[a := x][d := y], back[b := u][c := v], g, s, d, y, d, w);
    assert cell[a := x][d := y][d := y] == cell[a := x][d := y];
  }

  lemma FrameOne(cell: map<Loc, Link>, back: map<Loc, Option<Loc>>, g: nat, s: seq<nat>, a: Loc, x: Link, b: Loc, u: Option<Loc>)
    requires Rep(cell, back, g, s) && !Owns(g, s, a) && !Owns(g, s, b)
    ensures Rep(cell[a := x], back[b := u], g, s)
  {
    Frame(cell, back, cell[a := x], back[b := u], g, s);
  }

  lemma ConcatOthers(cell: map<Loc, Link>, back: map<Loc, Option<Loc>>, lists: map<nat, seq<nat>>, h1: nat, h2: nat, g: nat)
    requires All(cell, back, lists) && h1 in lists && h2 in lists && h1 != h2 && lists[h2] != []
    requires g in lists && g != h1 && g != h2
    ensures var s, t := lists[h1], lists[h2]; var last := LocAt(h1, s, |s|);
      Rep(cell[last := Ref(t[0])][Head(h2) := Nil],
          back[Next(t[0]) := Some(last)][Head(h1) := Some(LocAt(h2, t, |t|))][Head(h2) := Some(Head(h2))], g, lists[g])
  {
    var s, t := lists[h1], lists[h2];
    var last := LocAt(h1, s, |s|);
    NotOwned(lists, h1, g, last);
    NotOwned(lists, h2, g, Next(t[0]));
    FrameFour(cell, back, g, lists[g], last, Next(t[0]), Head(h1), Head(h2),
      Ref(t[0]), Nil, Some(last), Some(LocAt(h2, t, |t|)), Some(Head(h2)));
  }

  lemma ConcatAll(cell: map<Loc, Link>, back: map<Loc, Option<Loc>>, lists: map<nat, seq<nat>>, h1: nat, h2: nat)
    requires All(cell, back, lists) && h1 in lists && h2 in lists && h1 != h2 && lists[h2] != []
    ensures var s, t := lists[h1], lists[h2]; var last := LocAt(h1, s, |s|);
      All(cell[last := Ref(t[0])][Head(h2) := Nil],
          back[Next(t[0]) := Some(last)][Head(h1) := Some(LocAt(h2, t, |t|))][Head(h2) := Some(Head(h2))],
          lists[h1 := s + t][h2 := []])
  {
    var s, t := lists[h1], lists[h2];
    var last := LocAt(h1, s, |s|);
    var cell' := cell[last := Ref(t[0])][Head(h2) := Nil];
    var back' := back[Next(t[0]) := Some(last)][Head(h1) := Some(LocAt(h2, t, |t|))][Head(h2) := Some(Head(h2))];
    ConcatRep(cell, back, h1, s, h2, t);
    forall g | g in lists && g != h1 && g != h2 ensures Rep(cell', back', g, lists[g]) {
      ConcatOthers(cell, back, lists, h1, h2, g);
    }
    ConcatApart(lists, h1, h2);
  }
}
