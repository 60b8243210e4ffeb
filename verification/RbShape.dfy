/**
  The shape of a red-black tree and the algebra of its invariants: search order,
  equal black height, no red node under a red node.  A `Path` is a tree with one
  subtree missing, so a tree under repair is a path and the subtree in its hole.

  `side` stands for the mirror-image halves of the C macros: `true` is the left side.
*/
module RbShape {

  /** A node address; 0 is NULL. */
  type Ref = nat

  const NULL: Ref := 0

  datatype Tree = Leaf | T(left: Tree, ref: Ref, red: bool, key: int, right: Tree)

  /** A tree whose child on side `side` is `a` and whose other child is `b`. */
  function Join(side: bool, a: Tree, p: Ref, red: bool, key: int, b: Tree): Tree {
    if side then T(a, p, red, key, b) else T(b, p, red, key, a)
  }

  function Kid(t: Tree, side: bool): Tree
    requires t.T?
  {
    if side then t.left else t.right
  }

  function Root(t: Tree): Ref {
    if t.Leaf? then NULL else t.ref
  }

  predicate IsRed(t: Tree) {
    t.T? && t.red
  }

  /** The hole hangs on side `side` of node `p`; `sib` is the other child of `p`. */
  datatype Path = Top | Step(side: bool, p: Ref, red: bool, key: int, sib: Tree, up: Path)

  function Plug(c: Path, t: Tree): Tree
    decreases c
  {
    if c.Top? then t else Plug(c.up, Join(c.side, t, c.p, c.red, c.key, c.sib))
  }

  function Holder(c: Path): Ref {
    if c.Top? then NULL else c.p
  }

  /** The address of the root of the tree with `n` at the root of the hole. */
  function TopRef(c: Path, n: Ref): Ref
    decreases c
  {
    if c.Top? then n else TopRef(c.up, c.p)
  }

  // ------------------------------------------------------------------ node sets

  function Refs(t: Tree): set<Ref> {
    if t.Leaf? then {} else Refs(t.left) + {t.ref} + Refs(t.right)
  }

  /** No node occurs twice, and no node is NULL. */
  predicate Apart(t: Tree) {
    t.T? ==>
      && t.ref != NULL && t.ref !in Refs(t.left) && t.ref !in Refs(t.right)
      && Refs(t.left) !! Refs(t.right)
      && Apart(t.left) && Apart(t.right)
  }

  /** No node of the path occurs twice or in `s`, the nodes of the hole. */
  predicate PathApart(c: Path, s: set<Ref>)
    decreases c
  {
    c.Step? ==>
      && c.p != NULL && c.p !in s && c.p !in Refs(c.sib)
      && Refs(c.sib) !! s
      && Apart(c.sib)
      && PathApart(c.up, s + {c.p} + Refs(c.sib))
  }

  // ----------------------------------------------------------------- red-black

  /** Black nodes on the leftmost path. */
  function BlackHeight(t: Tree): nat {
    if t.Leaf? then 0 else BlackHeight(t.left) + (if t.red then 0 else 1)
  }

  /** Every path from the root to a leaf has the same number of black nodes. */
  predicate Balanced(t: Tree) {
    t.T? ==> BlackHeight(t.left) == BlackHeight(t.right) && Balanced(t.left) && Balanced(t.right)
  }

  predicate NoRedRed(t: Tree) {
    t.T? ==>
      && (t.red ==> !IsRed(t.left) && !IsRed(t.right))
      && NoRedRed(t.left) && NoRedRed(t.right)
  }

  predicate RedBlack(t: Tree) {
    Balanced(t) && NoRedRed(t) && !IsRed(t)
  }

  /** A subtree of black height `h` in the hole makes the whole tree balanced. */
  predicate PathBalanced(c: Path, h: nat)
    decreases c
  {
    c.Step? ==> BlackHeight(c.sib) == h && Balanced(c.sib) && PathBalanced(c.up, h + (if c.red then 0 else 1))
  }

  /** A subtree whose root is red (or not) in the hole leaves no red node under a red node. */
  predicate PathNoRedRed(c: Path, holeRed: bool)
    decreases c
  {
    c.Step? ==>
      && NoRedRed(c.sib)
      && (c.red ==> !holeRed && !IsRed(c.sib))
      && PathNoRedRed(c.up, c.red)
  }

  /** The topmost node of the path, if any, is black. */
  predicate BlackTop(c: Path)
    decreases c
  {
    c.Step? ==> if c.up.Top? then !c.red else BlackTop(c.up)
  }

  lemma {:induction false} PlugRedBlack(c: Path, t: Tree)
    requires PathBalanced(c, BlackHeight(t)) && Balanced(t)
    requires PathNoRedRed(c, IsRed(t)) && NoRedRed(t)
    ensures Balanced(Plug(c, t)) && NoRedRed(Plug(c, t))
    ensures BlackTop(c) && c.Step? ==> !IsRed(Plug(c, t))
    decreases c
  {
    if c.Step? {
      var j := Join(c.side, t, c.p, c.red, c.key, c.sib);
      assert BlackHeight(j) == BlackHeight(t) + (if c.red then 0 else 1);
      PlugRedBlack(c.up, j);
    }
  }

  // ------------------------------------------------------------- in-order lists

  datatype Item = Item(ref: Ref, key: int)

  /** The nodes from left to right. */
  function Inorder(t: Tree): seq<Item> {
    if t.Leaf? then [] else Inorder(t.left) + [Item(t.ref, t.key)] + Inorder(t.right)
  }

  /** What comes before the hole. */
  function Before(c: Path): seq<Item>
    decreases c
  {
    if c.Top? then [] else if c.side then Before(c.up)
    else Before(c.up) + Inorder(c.sib) + [Item(c.p, c.key)]
  }

  /** What comes after the hole. */
  function After(c: Path): seq<Item>
    decreases c
  {
    if c.Top? then [] else if c.side then [Item(c.p, c.key)] + Inorder(c.sib) + After(c.up)
    else After(c.up)
  }

  predicate Sorted(s: seq<Item>) {
    forall i, j :: 0 <= i < j < |s| ==> s[i].key < s[j].key
  }

  lemma {:induction false} PlugInorder(c: Path, t: Tree)
    ensures Inorder(Plug(c, t)) == Before(c) + Inorder(t) + After(c)
    decreases c
  {
    if c.Step? {
      PlugInorder(c.up, Join(c.side, t, c.p, c.red, c.key, c.sib));
    }
  }

  /** Subtrees that list the same nodes can stand in for each other. */
  lemma PlugSwap(c: Path, t: Tree, t': Tree)
    requires Inorder(t) == Inorder(t')
    ensures Inorder(Plug(c, t)) == Inorder(Plug(c, t'))
  {
    PlugInorder(c, t);
    PlugInorder(c, t');
  }

  function Depth(c: Path): nat
    decreases c
  {
    if c.Top? then 0 else 1 + Depth(c.up)
  }

  function RefsIn(s: seq<Item>): set<Ref> {
    set i | 0 <= i < |s| :: s[i].ref
  }

  lemma RefsInAppend(a: seq<Item>, b: seq<Item>)
    ensures RefsIn(a + b) == RefsIn(a) + RefsIn(b)
  {
    var s := a + b;
    forall x | x in RefsIn(a) + RefsIn(b) ensures x in RefsIn(s) {
      if x in RefsIn(a) {
        var i :| 0 <= i < |a| && a[i].ref == x;
        assert s[i].ref == x;
      } else {
        var i :| 0 <= i < |b| && b[i].ref == x;
        assert s[|a| + i].ref == x;
      }
    }
  }

  lemma RefsInOne(e: Item)
    ensures RefsIn([e]) == {e.ref}
  {
    assert [e][0].ref in RefsIn([e]);
  }

  lemma {:induction false} RefsAreInorder(t: Tree)
    ensures Refs(t) == RefsIn(Inorder(t))
  {
    if t.T? {
      RefsAreInorder(t.left);
      RefsAreInorder(t.right);
      var a, e, b := Inorder(t.left), Item(t.ref, t.key), Inorder(t.right);
      RefsInAppend(a + [e], b);
      RefsInAppend(a, [e]);
      RefsInOne(e);
    }
  }

  ghost predicate RefsOnce(s: seq<Item>) {
    forall i, j :: 0 <= i < j < |s| ==> s[i].ref != s[j].ref
  }

  lemma RefsOnceAppend(a: seq<Item>, b: seq<Item>)
    requires RefsOnce(a) && RefsOnce(b) && RefsIn(a) !! RefsIn(b)
    ensures RefsOnce(a + b)
  {
    forall i, j | 0 <= i < |a| && 0 <= j < |b| ensures a[i].ref != b[j].ref {
      assert a[i].ref in RefsIn(a) && b[j].ref in RefsIn(b);
    }
  }

  /** A tree has every node once in its order. */
  lemma {:induction false} ApartOnce(t: Tree)
    requires Apart(t)
    ensures RefsOnce(Inorder(t))
  {
    if t.T? {
      ApartOnce(t.left);
      ApartOnce(t.right);
      RefsAreInorder(t.left);
      RefsAreInorder(t.right);
      var a, e, b := Inorder(t.left), Item(t.ref, t.key), Inorder(t.right);
      RefsInOne(e);
      RefsOnceAppend(a, [e]);
      RefsInAppend(a, [e]);
      RefsOnceAppend(a + [e], b);
    }
  }

  // --------------------------------------------------------------------- height

  function Height(t: Tree): nat {
    if t.Leaf? then 0 else 1 + (if Height(t.left) > Height(t.right) then Height(t.left) else Height(t.right))
  }

  function Pow2(n: nat): nat {
    if n == 0 then 1 else 2 * Pow2(n - 1)
  }

  /** The whole part of the base-2 logarithm. */
  function Log2(n: nat): nat {
    if n <= 1 then 0 else 1 + Log2(n / 2)
  }

  lemma {:induction false} Log2Bounds(n: nat, k: nat)
    requires Pow2(k) <= n
    ensures k <= Log2(n)
  {
    if k > 0 {
      Pow2Positive(k - 1);
      Log2Bounds(n / 2, k - 1);
    }
  }

  lemma Pow2Positive(k: nat)
    ensures Pow2(k) >= 1
  {
  }

  lemma {:induction false} SizeFromBlackHeight(t: Tree)
    requires Balanced(t)
    ensures Pow2(BlackHeight(t)) <= |Inorder(t)| + 1
  {
    if t.T? {
      SizeFromBlackHeight(t.left);
      SizeFromBlackHeight(t.right);
    }
  }

  lemma {:induction false} HeightFromBlackHeight(t: Tree)
    requires Balanced(t) && NoRedRed(t)
    ensures Height(t) <= 2 * BlackHeight(t) + (if IsRed(t) then 1 else 0)
  {
    if t.T? {
      HeightFromBlackHeight(t.left);
      HeightFromBlackHeight(t.right);
    }
  }

  /** A red-black tree of n nodes is at most 2 lg(n + 1) high. */
  lemma HeightBound(t: Tree)
    requires RedBlack(t)
    ensures Height(t) <= 2 * Log2(|Inorder(t)| + 1)
  {
    SizeFromBlackHeight(t);
    HeightFromBlackHeight(t);
    Log2Bounds(|Inorder(t)| + 1, BlackHeight(t));
  }
}
