/**
  The rebalancing steps on tree shapes: what one turn of the insert and of the
  remove fix-up loop does to the invariants.
*/
module RbRepair {
  import opened RbShape
  import opened RbHeap

  // --------------------------------------------------------------------- insert

  /** The fix-up loop of insert: all is well except that `t`, red, may hang under a red node. */
  predicate InsertInv(c: Path, t: Tree) {
    && IsRed(t) && Balanced(t) && NoRedRed(t)
    && PathBalanced(c, BlackHeight(t)) && PathNoRedRed(c, false) && BlackTop(c)
  }

  /** The subtree at the grandparent, and the same subtree with its three upper nodes recolored. */
  function Family(c: Path, t: Tree): Tree
    requires c.Step? && c.up.Step?
  {
    Up(c.up, Up(c, t))
  }

  function FamilyRecolored(c: Path, t: Tree): Tree
    requires c.Step? && c.up.Step? && c.up.sib.T?
  {
    Up(c.up.(red := true, sib := c.up.sib.(red := false)), Up(c.(red := false), t))
  }

  /** Where the node in focus ends up when the last rotation of insert is done. */
  function StraightPath(c: Path): Path
    requires c.Step? && c.up.Step?
  {
    var g := c.up;
    Step(g.side, c.p, false, c.key, Join(g.side, c.sib, g.p, true, g.key, g.sib), g.up)
  }

  /** Parent and node change places. */
  function ZigzagPath(c: Path, t: Tree): Path
    requires c.Step? && c.up.Step? && t.T?
  {
    Step(!c.side, t.ref, t.red, t.key, Kid(t, c.side), c.up)
  }

  function ZigzagTree(c: Path, t: Tree): Tree
    requires c.Step? && t.T?
  {
    Join(!c.side, c.sib, c.p, c.red, c.key, Kid(t, !c.side))
  }

  lemma RedParentHasParent(c: Path, t: Tree)
    requires InsertInv(c, t) && c.Step? && c.red
    ensures c.up.Step? && !c.up.red
  {
    assert PathNoRedRed(c.up, true);
  }

  lemma InsertRecolor(c: Path, t: Tree)
    requires InsertInv(c, t) && c.Step? && c.red && c.up.Step? && IsRed(c.up.sib)
    ensures InsertInv(c.up.up, FamilyRecolored(c, t))
    ensures Inorder(FamilyRecolored(c, t)) == Inorder(Family(c, t))
  {
    assert PathBalanced(c.up, BlackHeight(t)) && PathNoRedRed(c.up, true) && BlackTop(c.up);
    var u := c.up.sib.(red := false);
    assert Balanced(u) && NoRedRed(u) && Inorder(u) == Inorder(c.up.sib);
    var p := Up(c.(red := false), t);
    assert Balanced(p) && NoRedRed(p) && Inorder(p) == Inorder(Up(c, t));
  }

  lemma InsertStraight(c: Path, t: Tree)
    requires InsertInv(c, t) && c.Step? && c.red && c.up.Step? && !IsRed(c.up.sib) && c.side == c.up.side
    ensures InsertInv(StraightPath(c), t)
  {
    var g := c.up;
    assert PathBalanced(g, BlackHeight(t)) && PathNoRedRed(g, true) && BlackTop(g);
    var s := Join(g.side, c.sib, g.p, true, g.key, g.sib);
    assert Balanced(s) && NoRedRed(s);
  }

  lemma StraightInorder(c: Path, t: Tree)
    requires c.Step? && c.up.Step? && c.side == c.up.side
    ensures Inorder(Plug(StraightPath(c), t)) == Inorder(Plug(c, t))
  {
    var g := c.up;
    var s := Up(StraightPath(c), t);
    assert s == Rotated(!g.side, Up(g.(red := true), Up(c.(red := false), t)));
    RotatedKeeps(!g.side, Up(g.(red := true), Up(c.(red := false), t)));
    assert Inorder(Up(c.(red := false), t)) == Inorder(Up(c, t));
    PlugSwap(g.up, s, Family(c, t));
  }

  /** Once the parent is black, or there is none, blackening the root finishes the repair. */
  lemma InsertDone(c: Path, t: Tree)
    requires InsertInv(c, t) && (c.Step? ==> !c.red)
    ensures Plug(c, t).T? && RedBlack(Plug(c, t).(red := false))
    ensures Inorder(Plug(c, t).(red := false)) == Inorder(Plug(c, t))
  {
    if c.Step? {
      assert PathNoRedRed(c, true);
      PlugRedBlack(c, t);
      PlugIsTree(c, t);
    }
  }

  lemma {:induction false} PlugIsTree(c: Path, t: Tree)
    requires c.Step? || t.T?
    ensures Plug(c, t).T?
    decreases c
  {
    if c.Step? {
      PlugIsTree(c.up, Up(c, t));
    }
  }

  lemma InsertZigzag(c: Path, t: Tree)
    requires InsertInv(c, t) && c.Step? && c.red && c.up.Step?
    ensures InsertInv(ZigzagPath(c, t), ZigzagTree(c, t))
    ensures Up(ZigzagPath(c, t), ZigzagTree(c, t)) == Rotated(!c.side, Up(c, t))
  {
  }

  // --------------------------------------------------------------------- remove

  function Blacken(t: Tree): Tree {
    if t.Leaf? then t else t.(red := false)
  }

  /** The fix-up loop of remove: every path through `t` is one black node short. */
  predicate RemoveInv(c: Path, t: Tree) {
    && Balanced(t) && NoRedRed(Blacken(t))
    && PathBalanced(c, BlackHeight(t) + 1) && PathNoRedRed(c, false) && BlackTop(c)
  }

  /** A short subtree with a red root, or one that is the whole tree, is repaired by blackening it. */
  lemma RemoveBlacken(c: Path, t: Tree)
    requires RemoveInv(c, t) && (IsRed(t) || c.Top?)
    ensures Balanced(Plug(c, Blacken(t))) && NoRedRed(Plug(c, Blacken(t))) && !IsRed(Plug(c, Blacken(t)))
    ensures Inorder(Blacken(t)) == Inorder(t)
  {
    if IsRed(t) {
      assert BlackHeight(Blacken(t)) == BlackHeight(t) + 1;
    }
    if c.Step? {
      PlugRedBlack(c, Blacken(t));
    }
  }

  /** A node that is one black short has a sibling. */
  lemma SiblingExists(c: Path, t: Tree)
    requires RemoveInv(c, t) && c.Step?
    ensures c.sib.T?
    ensures c.sib.red ==> Kid(c.sib, c.side).T? && !Kid(c.sib, c.side).red
  {
    if c.sib.red {
      var k := Kid(c.sib, c.side);
      assert BlackHeight(k) == BlackHeight(c.sib);
    }
  }

  /** Rotating a red sibling up gives a black sibling. */
  function RedSiblingPath(c: Path): Path
    requires c.Step? && c.sib.T?
  {
    var s := c.sib;
    Step(c.side, c.p, true, c.key, Kid(s, c.side), Step(c.side, s.ref, false, s.key, Kid(s, !c.side), c.up))
  }

  lemma RemoveRedSibling(c: Path, t: Tree)
    requires RemoveInv(c, t) && c.Step? && IsRed(c.sib)
    ensures RemoveInv(RedSiblingPath(c), t) && !IsRed(RedSiblingPath(c).sib)
    ensures Up(RedSiblingPath(c).up, Up(RedSiblingPath(c), t))
         == Rotated(c.side, Up(c.(red := true, sib := c.sib.(red := false)), t))
  {
    SiblingExists(c, t);
  }

  lemma RemoveRecolor(c: Path, t: Tree)
    requires RemoveInv(c, t) && c.Step? && c.sib.T? && !IsRed(c.sib) && !IsRed(t)
    requires !IsRed(c.sib.left) && !IsRed(c.sib.right)
    ensures RemoveInv(c.up, Up(c.(sib := c.sib.(red := true)), t))
    ensures Inorder(Up(c.(sib := c.sib.(red := true)), t)) == Inorder(Up(c, t))
  {
    var s := c.sib.(red := true);
    assert PathNoRedRed(c.up, c.red);
    assert PathNoRedRed(c.up, false);
    assert Balanced(s) && NoRedRed(s) && Inorder(s) == Inorder(c.sib);
  }

  /** The near nephew is rotated into the sibling's place. */
  function NearNephewPath(c: Path): Path
    requires c.Step? && c.sib.T? && Kid(c.sib, c.side).T?
  {
    c.(sib := Rotated(!c.side, RecoloredSibling(c)))
  }

  function RecoloredSibling(c: Path): Tree
    requires c.Step? && c.sib.T? && Kid(c.sib, c.side).T?
  {
    var n := Kid(c.sib, c.side).(red := false);
    Join(c.side, n, c.sib.ref, true, c.sib.key, Kid(c.sib, !c.side))
  }

  lemma RemoveNearNephew(c: Path, t: Tree)
    requires RemoveInv(c, t) && c.Step? && c.sib.T? && !c.sib.red
    requires IsRed(Kid(c.sib, c.side)) && !IsRed(Kid(c.sib, !c.side))
    ensures RemoveInv(NearNephewPath(c), t)
    ensures NearNephewPath(c).sib.T? && !NearNephewPath(c).sib.red && IsRed(Kid(NearNephewPath(c).sib, !c.side))
  {
    var n := Kid(c.sib, c.side);
    var low := Join(!c.side, Kid(c.sib, !c.side), c.sib.ref, true, c.sib.key, Kid(n, !c.side));
    assert Balanced(c.sib) && NoRedRed(c.sib) && Balanced(n) && NoRedRed(n);
    assert Balanced(low) && NoRedRed(low);
    assert Balanced(NearNephewPath(c).sib) && NoRedRed(NearNephewPath(c).sib);
  }

  /** The subtree after the last rotation of remove. */
  function Settled(c: Path, t: Tree): Tree
    requires c.Step? && c.sib.T? && Kid(c.sib, !c.side).T?
  {
    var s := c.sib;
    Join(c.side, Join(c.side, t, c.p, false, c.key, Kid(s, c.side)), s.ref, c.red, s.key,
         Kid(s, !c.side).(red := false))
  }

  /** The subtree before it, once recolored. */
  function Unsettled(c: Path, t: Tree): Tree
    requires c.Step? && c.sib.T? && Kid(c.sib, !c.side).T?
  {
    var s := c.sib;
    Up(c.(red := false, sib := Join(c.side, Kid(s, c.side), s.ref, c.red, s.key, Kid(s, !c.side).(red := false))), t)
  }

  lemma RemoveFarNephew(c: Path, t: Tree)
    requires RemoveInv(c, t) && c.Step? && !IsRed(t) && c.sib.T? && !c.sib.red && IsRed(Kid(c.sib, !c.side))
    ensures PathBalanced(c.up, BlackHeight(Settled(c, t))) && Balanced(Settled(c, t))
    ensures PathNoRedRed(c.up, IsRed(Settled(c, t))) && NoRedRed(Settled(c, t)) && BlackTop(c.up)
    ensures c.up.Top? ==> !IsRed(Settled(c, t))
    ensures Settled(c, t) == Rotated(c.side, Unsettled(c, t))
    ensures Inorder(Unsettled(c, t)) == Inorder(Up(c, t))
  {
    assert Balanced(c.sib) && NoRedRed(c.sib) && Balanced(Kid(c.sib, !c.side)) && NoRedRed(Kid(c.sib, !c.side));
    var f := Kid(c.sib, !c.side).(red := false);
    var low := Join(c.side, t, c.p, false, c.key, Kid(c.sib, c.side));
    assert Balanced(f) && NoRedRed(f) && Inorder(f) == Inorder(Kid(c.sib, !c.side));
    assert Balanced(low) && NoRedRed(low);
  }

  lemma RedSiblingInorder(c: Path, t: Tree)
    requires RemoveInv(c, t) && c.Step? && IsRed(c.sib)
    ensures Inorder(Plug(RedSiblingPath(c), t)) == Inorder(Plug(c, t))
  {
    var c' := c.(red := true, sib := c.sib.(red := false));
    RemoveRedSibling(c, t);
    RotatedKeeps(c.side, Up(c', t));
    assert Inorder(c'.sib) == Inorder(c.sib);
    assert Inorder(Up(c', t)) == Inorder(Up(c, t));
    PlugSwap(c.up, Rotated(c.side, Up(c', t)), Up(c, t));
  }

  lemma NearNephewInorder(c: Path, t: Tree)
    requires c.Step? && c.sib.T? && Kid(c.sib, c.side).T?
    ensures Inorder(Plug(NearNephewPath(c), t)) == Inorder(Plug(c, t))
  {
    var s := RecoloredSibling(c);
    RotatedKeeps(!c.side, s);
    assert Inorder(Kid(c.sib, c.side).(red := false)) == Inorder(Kid(c.sib, c.side));
    assert Inorder(s) == Inorder(c.sib);
    PlugSwap(c.up, Up(NearNephewPath(c), t), Up(c, t));
  }

  /** What the loop reads at the sibling's children. */
  lemma NephewColors(h: Heap, c: Path, t: Tree)
    requires Focus(h, c, t) && c.Step? && c.sib.T?
    ensures Child(h[c.p], !c.side) == c.sib.ref && c.sib.ref in h && h[c.sib.ref].red == c.sib.red
    ensures h[c.sib.ref].left == Root(c.sib.left) && h[c.sib.ref].right == Root(c.sib.right)
    ensures forall k :: k == c.sib.left || k == c.sib.right ==>
      (k.T? ==> k.ref != NULL && k.ref in h && h[k.ref].red == k.red)
  {
    assert Rep(h, c.sib, c.p);
    assert Rep(h, c.sib.left, c.sib.ref) && Rep(h, c.sib.right, c.sib.ref);
    assert Apart(c.sib.left) && Apart(c.sib.right);
  }

  lemma RootMeansTop(c: Path, t: Tree)
    requires PathApart(c, Refs(t))
    ensures TopRef(c, Root(t)) == Root(t) <==> c.Top?
  {
    if c.Step? {
      RootIsAbove(c, Root(t), Refs(t));
      RootInRefs(t);
    }
  }

  // ------------------------------------------------------- taking a tree apart

  lemma {:induction false} Unplug(c: Path, t: Tree)
    requires Balanced(Plug(c, t)) && NoRedRed(Plug(c, t))
    ensures PathBalanced(c, BlackHeight(t)) && Balanced(t)
    ensures PathNoRedRed(c, IsRed(t)) && NoRedRed(t)
    ensures c.Step? && !IsRed(Plug(c, t)) ==> BlackTop(c)
    decreases c
  {
    if c.Step? {
      Unplug(c.up, Up(c, t));
    }
  }

  /** The path to the successor, with the removed node's frame taken over by node `x`. */
  lemma {:induction false} RenameFrame(q: Path, c: Path, x: Ref, key: int, h: nat, holeRed: bool)
    requires c.Step? && PathBalanced(Extend(q, c), h) && PathNoRedRed(Extend(q, c), holeRed) && BlackTop(Extend(q, c))
    ensures PathBalanced(Extend(q, c.(p := x, key := key)), h)
    ensures PathNoRedRed(Extend(q, c.(p := x, key := key)), holeRed)
    ensures BlackTop(Extend(q, c.(p := x, key := key)))
    decreases q
  {
    if q.Step? {
      RenameFrame(q.up, c, x, key, h + (if q.red then 0 else 1), q.red);
    }
  }

  /** Cutting out a node with at most one child. */
  lemma SpliceInv(c: Path, t: Tree, k: Tree)
    requires t.T? && ((t.left.Leaf? && k == t.right) || (t.right.Leaf? && k == t.left))
    requires Balanced(t) && NoRedRed(t) && PathBalanced(c, BlackHeight(t)) && PathNoRedRed(c, IsRed(t)) && BlackTop(c)
    requires t.red ==> c.Step?
    ensures !t.red ==> RemoveInv(c, k)
    ensures t.red ==> RedBlack(Plug(c, k))
  {
    if t.red {
      PlugRedBlack(c, k);
    } else if k.T? {
      assert Balanced(k) && NoRedRed(k);
    }
  }

  // ------------------------------------------------------------ searching a key

  predicate AllBelow(s: seq<Item>, key: int) {
    forall i :: 0 <= i < |s| ==> s[i].key < key
  }

  predicate AllAbove(s: seq<Item>, key: int) {
    forall i :: 0 <= i < |s| ==> key < s[i].key
  }

  /** `key` belongs in the hole. */
  predicate Between(c: Path, key: int) {
    AllBelow(Before(c), key) && AllAbove(After(c), key)
  }

  /** A sorted list around one of its items. */
  lemma SortedSplit(p: seq<Item>, m: Item, q: seq<Item>)
    requires Sorted(p + [m] + q)
    ensures Sorted(p + q) && AllBelow(p, m.key) && AllAbove(q, m.key)
  {
    var s := p + [m] + q;
    assert s[|p|] == m;
    assert forall i :: 0 <= i < |p| ==> s[i] == p[i];
    assert forall i :: 0 <= i < |q| ==> s[|p| + 1 + i] == q[i];
    forall i, j | 0 <= i < j < |p + q| ensures (p + q)[i].key < (p + q)[j].key {
      assert (p + q)[i] == s[if i < |p| then i else i + 1];
      assert (p + q)[j] == s[if j < |p| then j else j + 1];
    }
  }

  lemma SortedMerge(p: seq<Item>, m: Item, q: seq<Item>)
    requires Sorted(p + q) && AllBelow(p, m.key) && AllAbove(q, m.key)
    ensures Sorted(p + [m] + q)
  {
    var s := p + [m] + q;
    forall i, j | 0 <= i < j < |s| ensures s[i].key < s[j].key {
      if i == |p| {
        assert s[j] == q[j - |p| - 1];
      } else if j == |p| {
        assert s[i] == p[i];
      } else {
        assert s[i] == (p + q)[if i < |p| then i else i - 1];
        assert s[j] == (p + q)[if j < |p| then j else j - 1];
      }
    }
  }

  lemma Regroup(b: seq<Item>, l: seq<Item>, m: Item, r: seq<Item>, a: seq<Item>)
    ensures b + (l + [m] + r) + a == (b + l) + [m] + (r + a)
    ensures b + l + [m] == (b + l) + [m] && [m] + r + a == [m] + (r + a)
  {
  }

  lemma GoDown(c: Path, t: Tree, key: int, left: bool)
    requires t.T? && Between(c, key) && Sorted(Before(c) + Inorder(t) + After(c))
    requires if left then key < t.key else t.key < key
    ensures Between(Down(c, t, left), key)
  {
    var m := Item(t.ref, t.key);
    var b, l, r, a := Before(c), Inorder(t.left), Inorder(t.right), After(c);
    Regroup(b, l, m, r, a);
    SortedSplit(b + l, m, r + a);
    if left {
      assert After(Down(c, t, true)) == [m] + r + a;
      AllAboveCons(m, r + a, key);
    } else {
      assert Before(Down(c, t, false)) == b + l + [m];
      AllBelowSnoc(b + l, m, key);
    }
  }

  lemma AllAboveCons(m: Item, q: seq<Item>, key: int)
    requires key < m.key && AllAbove(q, m.key)
    ensures AllAbove([m] + q, key)
  {
  }

  lemma AllBelowSnoc(p: seq<Item>, m: Item, key: int)
    requires m.key < key && AllBelow(p, m.key)
    ensures AllBelow(p + [m], key)
  {
  }

  /** `s'` is `s` with `e` added at its place. */
  ghost predicate InsertedInto(s: seq<Item>, s': seq<Item>, e: Item) {
    exists i :: 0 <= i <= |s| && s' == s[..i] + [e] + s[i..]
  }

  lemma InsertedSorted(p: seq<Item>, q: seq<Item>, e: Item)
    requires AllBelow(p, e.key) && AllAbove(q, e.key) && Sorted(p + q)
    ensures InsertedInto(p + q, p + [e] + q, e) && Sorted(p + [e] + q)
  {
    assert (p + q)[..|p|] == p && (p + q)[|p|..] == q;
    SortedMerge(p, e, q);
  }

  lemma AttachSorted(c: Path, x: Ref, key: int)
    requires Between(c, key) && Sorted(Inorder(Plug(c, Leaf)))
    ensures InsertedInto(Inorder(Plug(c, Leaf)), Inorder(Plug(c, T(Leaf, x, true, key, Leaf))), Item(x, key))
    ensures Sorted(Inorder(Plug(c, T(Leaf, x, true, key, Leaf))))
  {
    PlugInorder(c, Leaf);
    PlugInorder(c, T(Leaf, x, true, key, Leaf));
    assert Before(c) + [] + After(c) == Before(c) + After(c);
    assert Inorder(T(Leaf, x, true, key, Leaf)) == [Item(x, key)];
    InsertedSorted(Before(c), After(c), Item(x, key));
  }

  lemma AttachInv(c: Path, x: Ref, key: int)
    requires PathBalanced(c, 0) && PathNoRedRed(c, false) && (c.Step? ==> BlackTop(c))
    ensures InsertInv(c, T(Leaf, x, true, key, Leaf))
  {
  }

  // ------------------------------------------------------------- losing a node

  /** `s'` is `s` without the one item of node `x`. */
  ghost predicate RemovedFrom(s: seq<Item>, s': seq<Item>, x: Ref) {
    exists i :: 0 <= i < |s| && s[i].ref == x && s' == s[..i] + s[i + 1..]
  }

  lemma RefsWith(p: seq<Item>, e: Item, q: seq<Item>)
    ensures RefsIn(p + [e] + q) == RefsIn(p + q) + {e.ref}
  {
    RefsInAppend(p + [e], q);
    RefsInAppend(p, [e]);
    RefsInAppend(p, q);
    RefsInOne(e);
  }

  lemma RefsWithout(p: seq<Item>, e: Item, q: seq<Item>)
    requires RefsOnce(p + [e] + q)
    ensures e.ref !in RefsIn(p + q)
  {
    var s := p + [e] + q;
    assert s[|p|] == e;
    forall i | 0 <= i < |p + q| ensures (p + q)[i].ref != e.ref {
      assert (p + q)[i] == if i < |p| then s[i] else s[i + 1];
    }
  }

  lemma RefsLess(s: seq<Item>, i: nat)
    requires RefsOnce(s) && i < |s|
    ensures RefsIn(s[..i] + s[i + 1..]) == RefsIn(s) - {s[i].ref}
  {
    var p, q := s[..i], s[i + 1..];
    assert p + [s[i]] + q == s;
    RefsWith(p, s[i], q);
    RefsWithout(p, s[i], q);
  }

  /** The nodes of a tree after an insertion, and after a removal. */
  lemma {:induction false} InsertedRefs(t: Tree, t': Tree, e: Item)
    requires InsertedInto(Inorder(t), Inorder(t'), e)
    ensures Refs(t') == Refs(t) + {e.ref}
  {
    var s := Inorder(t);
    var i :| 0 <= i <= |s| && Inorder(t') == s[..i] + [e] + s[i..];
    RefsAreInorder(t);
    RefsAreInorder(t');
    RefsWith(s[..i], e, s[i..]);
    assert s[..i] + s[i..] == s;
  }

  lemma {:induction false} RemovedRefs(t: Tree, t': Tree, x: Ref)
    requires Apart(t) && RemovedFrom(Inorder(t), Inorder(t'), x)
    ensures Refs(t') == Refs(t) - {x}
  {
    var s := Inorder(t);
    var i :| 0 <= i < |s| && s[i].ref == x && Inorder(t') == s[..i] + s[i + 1..];
    RefsAreInorder(t);
    RefsAreInorder(t');
    ApartOnce(t);
    RefsLess(s, i);
  }

  lemma RemovedAt(p: seq<Item>, m: Item, q: seq<Item>)
    requires Sorted(p + [m] + q)
    ensures RemovedFrom(p + [m] + q, p + q, m.ref) && Sorted(p + q)
  {
    var s := p + [m] + q;
    assert s[|p|] == m && s[..|p|] == p && s[|p| + 1..] == q;
    SortedSplit(p, m, q);
  }

  lemma SpliceInorder(c: Path, t: Tree, k: Tree)
    requires t.T? && ((t.left.Leaf? && k == t.right) || (t.right.Leaf? && k == t.left))
    requires Sorted(Inorder(Plug(c, t)))
    ensures RemovedFrom(Inorder(Plug(c, t)), Inorder(Plug(c, k)), t.ref) && Sorted(Inorder(Plug(c, k)))
  {
    PlugInorder(c, t);
    PlugInorder(c, k);
    var m := Item(t.ref, t.key);
    Regroup(Before(c), Inorder(t.left), m, Inorder(t.right), After(c));
    RemovedAt(Before(c) + Inorder(t.left), m, Inorder(t.right) + After(c));
    assert Inorder(k) == Inorder(t.left) + Inorder(t.right);
    SpliceRegroup(Before(c), Inorder(t.left), Inorder(t.right), After(c));
  }

  lemma SpliceRegroup(b: seq<Item>, l: seq<Item>, r: seq<Item>, a: seq<Item>)
    ensures b + (l + r) + a == (b + l) + (r + a)
  {
  }

  /** The tree once the successor `s`, leftmost below `t.right`, has replaced the root of `t`. */
  function Succeeded(t: Tree, q: Path, s: Tree): Tree
    requires t.T? && s.T?
  {
    t.(ref := s.ref, key := s.key, right := Plug(q, s.right))
  }

  lemma SucceededInorder(c: Path, t: Tree, q: Path, s: Tree)
    requires t.T? && s.T? && s.left.Leaf? && Before(q) == [] && Plug(q, s) == t.right
    requires Sorted(Inorder(Plug(c, t)))
    ensures RemovedFrom(Inorder(Plug(c, t)), Inorder(Plug(c, Succeeded(t, q, s))), t.ref)
    ensures Sorted(Inorder(Plug(c, Succeeded(t, q, s))))
  {
    var m, e := Item(t.ref, t.key), Item(s.ref, s.key);
    PlugInorder(q, s);
    PlugInorder(q, s.right);
    var r' := Inorder(Plug(q, s.right));
    assert Inorder(t.right) == [e] + r';
    PlugInorder(c, t);
    PlugInorder(c, Succeeded(t, q, s));
    var b, l, a := Before(c), Inorder(t.left), After(c);
    Regroup(b, l, m, [e] + r', a);
    RemovedAt(b + l, m, ([e] + r') + a);
    SucceededRegroup(b, l, e, r', a);
  }

  /** The fix-up starts below the successor's old place, in the tree it now heads. */
  lemma SucceededInv(c: Path, t: Tree, q: Path, s: Tree)
    requires t.T? && s.T? && s.left.Leaf? && Plug(q, s) == t.right && RedBlack(Plug(c, t))
    ensures Plug(Extend(q, Down(c, Succeeded(t, q, s), false)), s.right) == Plug(c, Succeeded(t, q, s))
    ensures s.red ==> RedBlack(Plug(c, Succeeded(t, q, s)))
    ensures !s.red ==> RemoveInv(Extend(q, Down(c, Succeeded(t, q, s), false)), s.right)
  {
    var d := Down(c, t, false);
    var d' := Down(c, Succeeded(t, q, s), false);
    PlugExtend(q, d, s);
    Unplug(Extend(q, d), s);
    assert d' == d.(p := s.ref, key := s.key);
    RenameFrame(q, d, s.ref, s.key, BlackHeight(s), s.red);
    PlugExtend(q, d', s.right);
    SpliceInv(Extend(q, d'), s, s.right);
  }

  lemma SucceededRegroup(b: seq<Item>, l: seq<Item>, e: Item, r: seq<Item>, a: seq<Item>)
    ensures b + (l + [e] + r) + a == (b + l) + (([e] + r) + a)
  {
  }

  // ------------------------------------------------------------------- queries

  /** `r` is the first node whose key is at least `key`, or NULL if there is none. */
  ghost predicate IsLeastFrom(s: seq<Item>, key: int, r: Ref) {
    if r == NULL then AllBelow(s, key)
    else exists i :: 0 <= i < |s| && s[i].ref == r && key <= s[i].key && AllBelow(s[..i], key)
  }

  lemma LeastAtRoot(c: Path, t: Tree)
    requires t.T? && t.ref != NULL && Sorted(Before(c) + Inorder(t) + After(c))
    ensures IsLeastFrom(Before(c) + Inorder(t) + After(c), t.key, t.ref)
  {
    var p := Before(c) + Inorder(t.left);
    var q := Inorder(t.right) + After(c);
    var m := Item(t.ref, t.key);
    Regroup(Before(c), Inorder(t.left), m, Inorder(t.right), After(c));
    SortedSplit(p, m, q);
    var s := p + [m] + q;
    assert s[..|p|] == p && s[|p|] == m;
  }

  lemma LeastAfterHole(p: seq<Item>, q: seq<Item>, key: int, r: Ref)
    requires AllBelow(p, key) && AllAbove(q, key)
    requires if q == [] then r == NULL else r != NULL && r == q[0].ref
    ensures IsLeastFrom(p + q, key, r)
  {
    if q != [] {
      assert (p + q)[|p|] == q[0] && (p + q)[..|p|] == p;
    } else {
      assert p + q == p;
    }
  }
}
