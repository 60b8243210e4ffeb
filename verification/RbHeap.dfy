/**
  How a tree is laid out in memory: every node holds its two children, its parent
  and its color.  `Focus` says that the heap holds the tree `Plug(c, t)`, seen as the
  subtree `t` in the hole of the path `c`.
*/
module RbHeap {
  import opened RbShape

  /** A tree entry together with the key of the element that carries it. */
  datatype Node = Node(left: Ref, right: Ref, parent: Ref, red: bool, key: int)

  type Heap = map<Ref, Node>

  function Child(n: Node, side: bool): Ref {
    if side then n.left else n.right
  }

  function WithChild(n: Node, side: bool, x: Ref): Node {
    if side then n.(left := x) else n.(right := x)
  }

  function MakeNode(side: bool, a: Ref, b: Ref, parent: Ref, red: bool, key: int): Node {
    if side then Node(a, b, parent, red, key) else Node(b, a, parent, red, key)
  }

  /** `t` is stored in `h` and its root points up to `parent`. */
  predicate Rep(h: Heap, t: Tree, parent: Ref)
    decreases t
  {
    t.T? ==>
      && t.ref in h
      && h[t.ref] == Node(Root(t.left), Root(t.right), parent, t.red, t.key)
      && Rep(h, t.left, t.ref) && Rep(h, t.right, t.ref)
  }

  /** The path is stored in `h`, and its hole points down to `n`. */
  predicate PathRep(h: Heap, c: Path, n: Ref)
    decreases c
  {
    c.Step? ==>
      && c.p in h
      && h[c.p] == MakeNode(c.side, n, Root(c.sib), Holder(c.up), c.red, c.key)
      && Rep(h, c.sib, c.p) && PathRep(h, c.up, c.p)
  }

  predicate Focus(h: Heap, c: Path, t: Tree) {
    Rep(h, t, Holder(c)) && PathRep(h, c, Root(t)) && Apart(t) && PathApart(c, Refs(t))
  }

  predicate SameOn(h: Heap, h': Heap, s: set<Ref>) {
    forall x :: x in s && x in h && x != NULL ==> x in h' && h'[x] == h[x]
  }

  /** A subtree survives changes elsewhere, and a change of its root's parent pointer. */
  lemma {:induction false} RepFrame(h: Heap, h': Heap, t: Tree, parent: Ref, parent': Ref)
    requires Rep(h, t, parent) && Apart(t)
    requires t.T? ==> t.ref in h' && h'[t.ref] == h[t.ref].(parent := parent')
    requires SameOn(h, h', Refs(t) - {Root(t)})
    ensures Rep(h', t, parent')
    decreases t
  {
    if t.T? {
      RepSame(h, h', t.left, t.ref);
      RepSame(h, h', t.right, t.ref);
    }
  }

  lemma {:induction false} RepSame(h: Heap, h': Heap, t: Tree, parent: Ref)
    requires Rep(h, t, parent) && Apart(t)
    requires SameOn(h, h', Refs(t))
    ensures Rep(h', t, parent)
    decreases t
  {
    if t.T? {
      RepSame(h, h', t.left, t.ref);
      RepSame(h, h', t.right, t.ref);
    }
  }

  /** A path survives changes inside `s`, the nodes of its hole, and a new child in the hole. */
  lemma {:induction false} PathFrame(h: Heap, h': Heap, c: Path, n: Ref, n': Ref, s: set<Ref>)
    requires PathRep(h, c, n) && PathApart(c, s)
    requires SameOn(h, h', h.Keys - s - {Holder(c)})
    requires c.Step? ==> c.p in h' && h'[c.p] == WithChild(h[c.p], c.side, n')
    ensures PathRep(h', c, n')
    decreases c
  {
    if c.Step? {
      RepSame(h, h', c.sib, c.p);
      PathSame(h, h', c.up, c.p, s + {c.p} + Refs(c.sib));
    }
  }

  lemma {:induction false} PathSame(h: Heap, h': Heap, c: Path, n: Ref, s: set<Ref>)
    requires PathRep(h, c, n) && PathApart(c, s)
    requires SameOn(h, h', h.Keys - s)
    ensures PathRep(h', c, n)
    decreases c
  {
    if c.Step? {
      RepSame(h, h', c.sib, c.p);
      PathSame(h, h', c.up, c.p, s + {c.p} + Refs(c.sib));
    }
  }

  lemma {:induction false} PathApartShrinks(c: Path, s: set<Ref>, s': set<Ref>)
    requires PathApart(c, s) && s' <= s
    ensures PathApart(c, s')
    decreases c
  {
    if c.Step? {
      PathApartShrinks(c.up, s + {c.p} + Refs(c.sib), s' + {c.p} + Refs(c.sib));
    }
  }

  /** Replacing the subtree in focus by another one built from some of its nodes. */
  lemma Refocus(h: Heap, h': Heap, c: Path, t: Tree, t': Tree)
    requires Focus(h, c, t)
    requires Rep(h', t', Holder(c)) && Apart(t') && Refs(t') <= Refs(t)
    requires SameOn(h, h', h.Keys - Refs(t) - {Holder(c)})
    requires c.Step? ==> c.p in h' && h'[c.p] == WithChild(h[c.p], c.side, Root(t'))
    ensures Focus(h', c, t')
  {
    PathFrame(h, h', c, Root(t), Root(t'), Refs(t));
    PathApartShrinks(c, Refs(t), Refs(t'));
  }

  /** The path to a child of the subtree in focus. */
  function Down(c: Path, t: Tree, side: bool): Path
    requires t.T?
  {
    Step(side, t.ref, t.red, t.key, Kid(t, !side), c)
  }

  lemma FocusDown(h: Heap, c: Path, t: Tree, side: bool)
    requires Focus(h, c, t) && t.T?
    ensures Focus(h, Down(c, t, side), Kid(t, side))
    ensures TopRef(Down(c, t, side), Root(Kid(t, side))) == TopRef(c, Root(t))
  {
    assert Refs(Kid(t, side)) + {t.ref} + Refs(Kid(t, !side)) == Refs(t);
  }

  function Up(c: Path, t: Tree): Tree
    requires c.Step?
  {
    Join(c.side, t, c.p, c.red, c.key, c.sib)
  }

  lemma FocusUp(h: Heap, c: Path, t: Tree)
    requires Focus(h, c, t) && c.Step?
    ensures Focus(h, c.up, Up(c, t))
    ensures TopRef(c.up, c.p) == TopRef(c, Root(t))
  {
    assert Refs(t) + {c.p} + Refs(c.sib) == Refs(Up(c, t));
  }

  /** Zooming all the way out. */
  lemma {:induction false} FocusTop(h: Heap, c: Path, t: Tree)
    requires Focus(h, c, t)
    ensures Focus(h, Top, Plug(c, t)) && Root(Plug(c, t)) == TopRef(c, Root(t))
    decreases c
  {
    if c.Step? {
      FocusUp(h, c, t);
      FocusTop(h, c.up, Up(c, t));
    }
  }

  /** The hole hangs on the side the path says, also when both it and its sibling are NULL-free. */
  lemma HoleSide(h: Heap, c: Path, t: Tree)
    requires Focus(h, c, t) && c.Step? && (t.T? || c.sib.T?)
    ensures Child(h[c.p], c.side) == Root(t) && Child(h[c.p], !c.side) != Root(t)
    ensures (h[c.p].left == Root(t)) == c.side
  {
    if t.T? && c.sib.T? {
      assert c.sib.ref in Refs(c.sib) && t.ref in Refs(t);
    }
  }

  /** The root of the whole tree is not inside a hole below it. */
  lemma {:induction false} RootIsAbove(c: Path, n: Ref, s: set<Ref>)
    requires PathApart(c, s) && c.Step?
    ensures TopRef(c, n) != NULL && TopRef(c, n) !in s
    decreases c
  {
    if c.up.Step? {
      RootIsAbove(c.up, c.p, s + {c.p} + Refs(c.sib));
    }
  }

  /** The path `q` continued upwards by `c`. */
  function Extend(q: Path, c: Path): Path
    decreases q
  {
    if q.Top? then c else q.(up := Extend(q.up, c))
  }

  lemma {:induction false} FocusInto(h: Heap, q: Path, c: Path, t: Tree)
    requires Focus(h, c, Plug(q, t))
    ensures Focus(h, Extend(q, c), t)
    ensures TopRef(Extend(q, c), Root(t)) == TopRef(c, Root(Plug(q, t)))
    decreases q
  {
    if q.Step? {
      FocusInto(h, q.up, c, Up(q, t));
      FocusDown(h, Extend(q.up, c), Up(q, t), q.side);
      assert Down(Extend(q.up, c), Up(q, t), q.side) == Extend(q, c);
    }
  }

  lemma {:induction false} FocusOutOf(h: Heap, q: Path, c: Path, t: Tree)
    requires Focus(h, Extend(q, c), t)
    ensures Focus(h, c, Plug(q, t))
    ensures TopRef(Extend(q, c), Root(t)) == TopRef(c, Root(Plug(q, t)))
    decreases q
  {
    if q.Step? {
      FocusUp(h, Extend(q, c), t);
      FocusOutOf(h, q.up, c, Up(q, t));
    }
  }

  lemma {:induction false} PlugExtend(q: Path, c: Path, t: Tree)
    ensures Plug(Extend(q, c), t) == Plug(c, Plug(q, t))
    decreases q
  {
    if q.Step? {
      PlugExtend(q.up, c, Up(q, t));
    }
  }

  /** Zooming in on a given node. */
  lemma {:induction false} Zoom(h: Heap, c: Path, t: Tree, x: Ref) returns (c': Path, t': Tree)
    requires Focus(h, c, t) && x in Refs(t)
    ensures Focus(h, c', t') && t'.T? && t'.ref == x
    ensures Plug(c', t') == Plug(c, t) && TopRef(c', x) == TopRef(c, Root(t))
    decreases t
  {
    if t.ref == x {
      c', t' := c, t;
    } else {
      var side := x in Refs(t.left);
      FocusDown(h, c, t, side);
      c', t' := Zoom(h, Down(c, t, side), Kid(t, side), x);
    }
  }

  /** Zooming in on the node at a given place in order. */
  lemma {:induction false} ZoomAt(h: Heap, c: Path, t: Tree, i: nat) returns (c': Path, t': Tree)
    requires Focus(h, c, t) && i < |Inorder(t)|
    ensures Focus(h, c', t') && t'.T? && Item(t'.ref, t'.key) == Inorder(t)[i]
    ensures Plug(c', t') == Plug(c, t) && TopRef(c', Root(t')) == TopRef(c, Root(t))
    ensures |Before(c')| + |Inorder(t'.left)| == |Before(c)| + i
    decreases t
  {
    var n := |Inorder(t.left)|;
    if i == n {
      c', t' := c, t;
    } else {
      FocusDown(h, c, t, i < n);
      c', t' := ZoomAt(h, Down(c, t, i < n), Kid(t, i < n), if i < n then i else i - n - 1);
    }
  }

  /** A node without children, written into the hole. */
  lemma AttachRep(h: Heap, h': Heap, c: Path, x: Ref, key: int)
    requires Focus(h, c, Leaf) && PathApart(c, {x}) && x != NULL
    requires x in h' && h'[x] == Node(NULL, NULL, Holder(c), true, key)
    requires c.Step? ==> c.p in h' && h'[c.p] == WithChild(h[c.p], c.side, x)
    requires SameOn(h, h', h.Keys - {x, Holder(c)})
    ensures Focus(h', c, T(Leaf, x, true, key, Leaf))
  {
    PathFrame(h, h', c, NULL, x, {x});
    assert Refs(T(Leaf, x, true, key, Leaf)) == {x};
  }

  lemma {:induction false} FreshApart(c: Path, x: Ref, s: set<Ref>)
    requires PathApart(c, s) && x !in Refs(Plug(c, Leaf)) && x !in s
    ensures PathApart(c, s + {x})
    decreases c
  {
    if c.Step? {
      PlugRefs(c, Leaf);
      PlugRefs(c.up, Leaf);
      FreshApart(c.up, x, s + {c.p} + Refs(c.sib));
      assert s + {x} + {c.p} + Refs(c.sib) == s + {c.p} + Refs(c.sib) + {x};
    }
  }

  function PathRefs(c: Path): set<Ref>
    decreases c
  {
    if c.Top? then {} else {c.p} + Refs(c.sib) + PathRefs(c.up)
  }

  lemma {:induction false} PlugRefs(c: Path, t: Tree)
    ensures Refs(Plug(c, t)) == Refs(t) + PathRefs(c)
    decreases c
  {
    if c.Step? {
      PlugRefs(c.up, Up(c, t));
      assert Refs(Up(c, t)) == Refs(t) + {c.p} + Refs(c.sib);
    }
  }

  /** The root of `t` is cut out and its only child `k` takes its place. */
  lemma SpliceRep(h: Heap, h': Heap, c: Path, t: Tree, k: Tree)
    requires Focus(h, c, t) && t.T? && ((t.left.Leaf? && k == t.right) || (t.right.Leaf? && k == t.left))
    requires k.T? ==> k.ref in h && k.ref in h' && h'[k.ref] == h[k.ref].(parent := Holder(c))
    requires c.Step? ==> c.p in h' && h'[c.p] == WithChild(h[c.p], c.side, Root(k))
    requires SameOn(h, h', h.Keys - {Root(k), Holder(c)})
    ensures Focus(h', c, k)
  {
    NullIsNoNode(t);
    RootInRefs(k);
    RepFrame(h, h', k, t.ref, Holder(c));
    Refocus(h, h', c, t, k);
  }

  lemma SpliceSite(h: Heap, c: Path, t: Tree, k: Tree)
    requires Focus(h, c, t) && t.T? && (k == t.left || k == t.right)
    ensures k.T? ==> k.ref != NULL && k.ref in h && k.ref != Holder(c)
    ensures c.Step? ==> c.p != NULL && c.p in h && (h[c.p].left == t.ref) == c.side
  {
    assert Rep(h, k, t.ref) && Apart(k);
    assert k.T? ==> k.ref in Refs(k) && k.ref in Refs(t);
    if c.Step? {
      HoleSide(h, c, t);
    }
  }

  lemma ReplaceSite(h: Heap, c: Path, t: Tree, x: Ref)
    requires Focus(h, c, t) && t.T? && x !in Refs(t) && x != NULL && PathApart(c, Refs(t) + {x})
    ensures t.ref in h && t.ref != NULL && t.ref != x && t.ref != Holder(c) && x != Holder(c)
    ensures h[t.ref].left == Root(t.left) && h[t.ref].right == Root(t.right) && h[t.ref].parent == Holder(c)
    ensures c.Step? ==> c.p != NULL && c.p in h && (h[c.p].left == t.ref) == c.side
    ensures forall k :: k == t.left || k == t.right ==>
      (k.T? ==> k.ref != NULL && k.ref in h && k.ref != Holder(c) && k.ref != t.ref && k.ref != x)
    ensures t.left.T? && t.right.T? ==> t.left.ref != t.right.ref
  {
    SpliceSite(h, c, t, t.left);
    SpliceSite(h, c, t, t.right);
    RootInRefs(t.left);
    RootInRefs(t.right);
  }

  /** The leftmost node `s` below the right child of the root of `t`, about to be cut out. */
  lemma SuccessorSite(h: Heap, c: Path, t: Tree, q: Path, s: Tree)
    requires Focus(h, c, t) && t.T? && s.T? && Plug(q, s) == t.right
    requires Focus(h, Extend(q, Down(c, t, false)), s)
    ensures s.ref != NULL && s.ref in Refs(t.right) && s.ref !in Refs(Plug(q, s.right)) && s.ref != t.ref
    ensures Refs(t.(right := Plug(q, s.right))) + {s.ref} <= Refs(t)
    ensures PathApart(c, Refs(t.(right := Plug(q, s.right))) + {s.ref})
    ensures s.ref in h && h[s.ref] == Node(Root(s.left), Root(s.right), Holder(Extend(q, Down(c, t, false))), s.red, s.key)
    ensures Holder(Extend(q, Down(c, t, false))) == t.ref <==> q.Top?
  {
    PlugRefs(q, s);
    PlugRefs(q, s.right);
    HoleNotOnPath(q, Down(c, t, false), Refs(s));
    PathApartShrinks(c, Refs(t), Refs(t.(right := Plug(q, s.right))) + {s.ref});
  }

  lemma {:induction false} HoleNotOnPath(q: Path, d: Path, s: set<Ref>)
    requires PathApart(Extend(q, d), s)
    ensures PathRefs(q) !! s
    decreases q
  {
    if q.Step? {
      HoleNotOnPath(q.up, d, s + {q.p} + Refs(q.sib));
    }
  }

  /** Node `x` takes the place of the root of `t`, links and color. */
  lemma ReplaceRep(h: Heap, h': Heap, c: Path, t: Tree, x: Ref, key: int)
    requires Focus(h, c, t) && t.T? && x != NULL && x !in Refs(t) && PathApart(c, Refs(t) + {x})
    requires t.ref in h && x in h' && h'[x] == h[t.ref].(key := key)
    requires forall side :: Kid(t, side).T? ==>
      var k := Kid(t, side).ref; k in h && k in h' && h'[k] == h[k].(parent := x)
    requires c.Step? ==> c.p in h' && h'[c.p] == WithChild(h[c.p], c.side, x)
    requires SameOn(h, h', h.Keys - {x, Root(t.left), Root(t.right), Holder(c)})
    ensures Focus(h', c, t.(ref := x, key := key))
  {
    RootInRefs(t.left);
    RootInRefs(t.right);
    NullIsNoNode(t.left);
    NullIsNoNode(t.right);
    assert Kid(t, true) == t.left && Kid(t, false) == t.right;
    RepFrame(h, h', t.left, t.ref, x);
    RepFrame(h, h', t.right, t.ref, x);
    PathFrame(h, h', c, t.ref, x, Refs(t) + {x});
    PathApartShrinks(c, Refs(t) + {x}, Refs(t.(ref := x, key := key)));
  }

  /** Repainting the root of the subtree in focus. */
  lemma RecolorRep(h: Heap, c: Path, t: Tree, red: bool)
    requires Focus(h, c, t) && t.T?
    ensures t.ref in h && Focus(h[t.ref := h[t.ref].(red := red)], c, t.(red := red))
  {
    var h' := h[t.ref := h[t.ref].(red := red)];
    RepSame(h, h', t.left, t.ref);
    RepSame(h, h', t.right, t.ref);
    assert Refs(t.(red := red)) == Refs(t);
    Refocus(h, h', c, t, t.(red := red));
  }

  lemma {:induction false} TopRefSame(c: Path, n: Ref, n': Ref)
    ensures c.Step? ==> TopRef(c, n) == TopRef(c, n')
  {
  }

  // ------------------------------------------------------------------- rotation

  /** The rotation that moves the root of `t` down to side `side`. */
  function Rotated(side: bool, t: Tree): Tree
    requires t.T? && Kid(t, !side).T?
  {
    var y := Kid(t, !side);
    Join(side, Join(side, Kid(t, side), t.ref, t.red, t.key, Kid(y, side)), y.ref, y.red, y.key, Kid(y, !side))
  }

  lemma RotatedKeeps(side: bool, t: Tree)
    requires t.T? && Kid(t, !side).T?
    ensures Inorder(Rotated(side, t)) == Inorder(t)
    ensures Refs(Rotated(side, t)) == Refs(t)
    ensures Apart(t) ==> Apart(Rotated(side, t))
  {
    var y := Kid(t, !side);
    var x' := Join(side, Kid(t, side), t.ref, t.red, t.key, Kid(y, side));
    if side {
      assert Inorder(x') == Inorder(t.left) + [Item(t.ref, t.key)] + Inorder(y.left);
    } else {
      assert Inorder(x') == Inorder(y.right) + [Item(t.ref, t.key)] + Inorder(t.right);
    }
    if Apart(t) {
      assert Apart(y);
      assert Refs(Kid(y, side)) + {y.ref} + Refs(Kid(y, !side)) == Refs(y);
      assert Apart(x');
    }
  }

  /** The nodes a rotation at `x` touches: `x`, the child `y` that moves up, the child
      `b` that changes sides, and the parent `p`. */
  predicate RotateSite(h: Heap, side: bool, x: Ref, y: Ref, b: Ref, p: Ref) {
    && x in h && y in h && x != NULL && y != NULL && x != y
    && y == Child(h[x], !side) && b == Child(h[y], side) && p == h[x].parent
    && (b != NULL ==> b in h && b != x && b != y && b != p)
    && (p != NULL ==> p in h && p != x && p != y && (x == h[p].left) != (x == h[p].right))
  }

  /** `h'` is `h` after the pointer writes of that rotation. */
  predicate RotateWrites(h: Heap, h': Heap, side: bool, x: Ref, y: Ref, b: Ref, p: Ref)
    requires RotateSite(h, side, x, y, b, p)
  {
    && h'.Keys == h.Keys
    && h'[x] == WithChild(h[x], !side, b).(parent := y)
    && h'[y] == WithChild(h[y], side, x).(parent := p)
    && (b != NULL ==> h'[b] == h[b].(parent := x))
    && (p != NULL ==> h'[p] == WithChild(h[p], x == h[p].left, y))
    && SameOn(h, h', h.Keys - {x, y, b, p})
  }

  lemma RotateSiteOf(h: Heap, c: Path, t: Tree, side: bool)
    requires Focus(h, c, t) && t.T? && Kid(t, !side).T?
    ensures RotateSite(h, side, t.ref, Kid(t, !side).ref, Root(Kid(Kid(t, !side), side)), Holder(c))
    ensures c.Step? ==> (t.ref == h[c.p].left) == c.side
  {
    var ty := Kid(t, !side);
    var b := Kid(ty, side);
    assert Rep(h, ty, t.ref) && Rep(h, b, ty.ref) && Apart(ty) && Apart(b);
    assert ty.ref in Refs(ty) && ty.ref in Refs(t);
    assert b.T? ==> b.ref in Refs(b) && b.ref in Refs(ty) && b.ref in Refs(t);
    if c.Step? {
      HoleSide(h, c, t);
    }
  }

  lemma RotateLocal(h: Heap, h': Heap, t: Tree, side: bool, p: Ref)
    requires Rep(h, t, p) && Apart(t) && p !in Refs(t) && t.T? && Kid(t, !side).T?
    requires RotateSite(h, side, t.ref, Kid(t, !side).ref, Root(Kid(Kid(t, !side), side)), p)
    requires RotateWrites(h, h', side, t.ref, Kid(t, !side).ref, Root(Kid(Kid(t, !side), side)), p)
    ensures Rep(h', Rotated(side, t), p)
  {
    var x, ty := t.ref, Kid(t, !side);
    var y, b := ty.ref, Kid(ty, side);
    assert Rep(h, ty, x) && Apart(ty) && y in Refs(ty);
    assert b.T? ==> b.ref in Refs(b);
    RepSame(h, h', Kid(t, side), x);
    RepSame(h, h', Kid(ty, !side), y);
    RepFrame(h, h', b, y, x);
    assert Rep(h', Join(side, Kid(t, side), x, t.red, t.key, b), y);
  }

  lemma {:induction false} NullIsNoNode(t: Tree)
    requires Apart(t)
    ensures NULL !in Refs(t)
  {
    if t.T? {
      NullIsNoNode(t.left);
      NullIsNoNode(t.right);
    }
  }

  lemma RotateRep(h: Heap, h': Heap, c: Path, t: Tree, side: bool)
    requires Focus(h, c, t) && t.T? && Kid(t, !side).T?
    requires RotateSite(h, side, t.ref, Kid(t, !side).ref, Root(Kid(Kid(t, !side), side)), Holder(c))
    requires RotateWrites(h, h', side, t.ref, Kid(t, !side).ref, Root(Kid(Kid(t, !side), side)), Holder(c))
    ensures Focus(h', c, Rotated(side, t))
  {
    NullIsNoNode(t);
    RotateLocal(h, h', t, side, Holder(c));
    RotatedKeeps(side, t);
    if c.Step? {
      HoleSide(h, c, t);
    }
    RootInRefs(Kid(Kid(t, !side), side));
    assert {t.ref, Kid(t, !side).ref, Root(Kid(Kid(t, !side), side))} <= Refs(t) + {NULL};
    Refocus(h, h', c, t, Rotated(side, t));
  }

  lemma RootInRefs(t: Tree)
    ensures t.T? ==> t.ref in Refs(t)
  {
  }
}
