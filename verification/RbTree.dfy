/**
  The red-black tree of csf/include/tree.h, with its nodes in a heap that the
  methods rewrite in place.  Each pair of mirror-image branches of the macros is
  one branch here, over the side it works on.
*/
module RbTree {
  import opened RbShape
  import opened RbHeap
  import opened RbRepair

  class RbTree {
    var root: Ref
    var nodes: Heap
    ghost var tree: Tree

    ghost predicate Valid()
      reads this
    {
      Focus(nodes, Top, tree) && root == Root(tree) && RedBlack(tree) && Sorted(Inorder(tree))
    }

    /** The heap holds the tree that has `t` in the hole of `c`. */
    ghost predicate Holds(c: Path, t: Tree)
      reads this
    {
      Focus(nodes, c, t) && root == TopRef(c, Root(t))
    }

    constructor ()
      ensures Valid() && tree == Leaf && nodes == map[]
    {
      root, nodes, tree := NULL, map[], Leaf;
    }

    /** The assignments of RB_ROTATE_LEFT (`side` is true) and RB_ROTATE_RIGHT. */
    method RotatePointers(side: bool, x: Ref, ghost y: Ref, ghost b: Ref, ghost p: Ref)
      requires RotateSite(nodes, side, x, y, b, p)
      modifies this`root, this`nodes
      ensures RotateWrites(old(nodes), nodes, side, x, y, b, p)
      ensures root == if p == NULL then y else old(root)
    {
      var tmp := Child(nodes[x], !side);
      var moved := Child(nodes[tmp], side);
      nodes := nodes[x := WithChild(nodes[x], !side, moved)];
      if moved != NULL {
        nodes := nodes[moved := nodes[moved].(parent := x)];
      }
      var parent := nodes[x].parent;
      nodes := nodes[tmp := nodes[tmp].(parent := parent)];
      if parent != NULL {
        nodes := nodes[parent := WithChild(nodes[parent], x == nodes[parent].left, tmp)];
      } else {
        root := tmp;
      }
      nodes := nodes[tmp := WithChild(nodes[tmp], side, x)];
      nodes := nodes[x := nodes[x].(parent := tmp)];
    }

    method Rotate(side: bool, x: Ref, ghost c: Path, ghost t: Tree)
      requires Holds(c, t) && t.T? && t.ref == x && Kid(t, !side).T?
      modifies this`root, this`nodes
      ensures Holds(c, Rotated(side, t)) && nodes.Keys == old(nodes.Keys)
    {
      ghost var h := nodes;
      RotateSiteOf(h, c, t, side);
      RotatePointers(side, x, Kid(t, !side).ref, Root(Kid(Kid(t, !side), side)), Holder(c));
      RotateRep(h, nodes, c, t, side);
    }

    method SetColor(x: Ref, red: bool, ghost c: Path, ghost t: Tree)
      requires Holds(c, t) && t.T? && t.ref == x
      modifies this`nodes
      ensures Holds(c, t.(red := red)) && nodes.Keys == old(nodes.Keys)
    {
      RecolorRep(nodes, c, t, red);
      nodes := nodes[x := nodes[x].(red := red)];
    }

    // ------------------------------------------------------------------- insert

    /** Parent and uncle turn black, the grandparent red. */
    method InsertRecolorStep(parent: Ref, gparent: Ref, uncle: Ref, ghost c: Path, ghost t: Tree)
      requires Holds(c, t) && c.Step? && c.up.Step? && c.up.sib.T?
      requires parent == c.p && gparent == c.up.p && uncle == c.up.sib.ref
      modifies this`nodes
      ensures Holds(c.up.up, FamilyRecolored(c, t)) && nodes.Keys == old(nodes.Keys)
    {
      ghost var g := c.up;
      FocusUp(nodes, c, t);
      FocusUp(nodes, g, Up(c, t));
      FocusDown(nodes, g.up, Family(c, t), !g.side);
      SetColor(uncle, false, Down(g.up, Family(c, t), !g.side), g.sib);
      ghost var g' := g.(sib := g.sib.(red := false));
      FocusUp(nodes, Down(g.up, Family(c, t), !g.side), g'.sib);
      assert Up(Down(g.up, Family(c, t), !g.side), g'.sib) == Up(g', Up(c, t));
      FocusDown(nodes, g.up, Up(g', Up(c, t)), g.side);
      SetColor(parent, false, g', Up(c, t));
      FocusUp(nodes, g', Up(c.(red := false), t));
      SetColor(gparent, true, g.up, Up(g', Up(c.(red := false), t)));
    }

    /** The node and its parent change places, so that both hang on the same side. */
    method InsertZigzagStep(side: bool, parent: Ref, ghost c: Path, ghost t: Tree)
      requires Holds(c, t) && InsertInv(c, t) && c.Step? && c.red && c.up.Step? && parent == c.p && side == !c.side
      modifies this`nodes, this`root
      ensures Holds(ZigzagPath(c, t), ZigzagTree(c, t)) && nodes.Keys == old(nodes.Keys)
    {
      FocusUp(nodes, c, t);
      Rotate(side, parent, c.up, Up(c, t));
      InsertZigzag(c, t);
      FocusDown(nodes, c.up, Rotated(!c.side, Up(c, t)), !c.side);
    }

    /** Recolor parent and grandparent and rotate the grandparent down. */
    method InsertStraightStep(side: bool, parent: Ref, gparent: Ref, ghost c: Path, ghost t: Tree)
      requires Holds(c, t) && c.Step? && c.up.Step? && c.side == c.up.side == side
      requires parent == c.p && gparent == c.up.p
      modifies this`nodes, this`root
      ensures Holds(StraightPath(c), t) && nodes.Keys == old(nodes.Keys)
    {
      ghost var g := c.up;
      FocusUp(nodes, c, t);
      SetColor(parent, false, g, Up(c, t));
      ghost var p := Up(c.(red := false), t);
      FocusUp(nodes, g, p);
      SetColor(gparent, true, g.up, Up(g, p));
      ghost var gt := Up(g.(red := true), p);
      Rotate(!side, gparent, g.up, gt);
      assert Rotated(!g.side, gt) == Up(StraightPath(c), t);
      FocusDown(nodes, g.up, Rotated(!g.side, gt), g.side);
    }

    /** The one or two rotations that end the repair. */
    method InsertRotations(side: bool, elm: Ref, parent: Ref, gparent: Ref, ghost c: Path, ghost t: Tree)
      returns (elm': Ref, ghost c': Path, ghost t': Tree)
      requires Holds(c, t) && InsertInv(c, t) && c.Step? && c.red && c.up.Step? && !IsRed(c.up.sib)
      requires elm == Root(t) && parent == c.p && gparent == c.up.p && side == c.up.side
      modifies this`nodes, this`root
      ensures Holds(c', t') && InsertInv(c', t') && Root(t') == elm' && nodes.Keys == old(nodes.Keys)
      ensures Depth(c') < Depth(c) && Inorder(Plug(c', t')) == Inorder(Plug(c, t))
    {
      HoleSide(nodes, c, t);
      var p := parent;
      elm', c', t' := elm, c, t;
      if Child(nodes[parent], !side) == elm {
        InsertZigzag(c, t);
        InsertZigzagStep(side, parent, c, t);
        RotatedKeeps(!c.side, Up(c, t));
        PlugSwap(c.up, Up(c, t), Rotated(!c.side, Up(c, t)));
        p, elm', c', t' := elm, parent, ZigzagPath(c, t), ZigzagTree(c, t);
      }
      InsertStraight(c', t');
      InsertStraightStep(side, p, gparent, c', t');
      StraightInorder(c', t');
      c' := StraightPath(c');
      assert Depth(c') == 1 + Depth(c.up.up) && Depth(c) == 1 + Depth(c.up);
    }

    /** RB_INSERT_COLOR */
    method InsertColor(x: Ref, ghost c0: Path, ghost t0: Tree)
      requires Holds(c0, t0) && InsertInv(c0, t0) && Root(t0) == x
      modifies this
      ensures Holds(Top, tree) && RedBlack(tree) && nodes.Keys == old(nodes.Keys)
      ensures Inorder(tree) == Inorder(Plug(c0, t0))
    {
      var elm := x;
      ghost var c, t := c0, t0;
      var parent := nodes[elm].parent;
      while parent != NULL && nodes[parent].red
        invariant Holds(c, t) && InsertInv(c, t) && Root(t) == elm && parent == Holder(c)
        invariant nodes.Keys == old(nodes.Keys)
        invariant Inorder(Plug(c, t)) == Inorder(Plug(c0, t0))
        decreases Depth(c)
      {
        RedParentHasParent(c, t);
        FocusUp(nodes, c, t);
        var gparent := nodes[parent].parent;
        HoleSide(nodes, c.up, Up(c, t));
        var side := parent == nodes[gparent].left;
        var tmp := Child(nodes[gparent], !side);
        if tmp != NULL && nodes[tmp].red {
          InsertRecolor(c, t);
          InsertRecolorStep(parent, gparent, tmp, c, t);
          PlugSwap(c.up.up, Family(c, t), FamilyRecolored(c, t));
          assert Depth(c) == 1 + Depth(c.up);
          elm, c, t := gparent, c.up.up, FamilyRecolored(c, t);
        } else {
          elm, c, t := InsertRotations(side, elm, parent, gparent, c, t);
        }
        parent := nodes[elm].parent;
      }
      FocusTop(nodes, c, t);
      InsertDone(c, t);
      tree := Plug(c, t);
      SetColor(root, false, Top, tree);
      tree := tree.(red := false);
    }

    /** The search loop of RB_INSERT: the node with the key, or where a new one belongs. */
    method Descend(key: int) returns (tmp: Ref, parent: Ref, left: bool, ghost c: Path, ghost t: Tree)
      requires Valid()
      ensures Holds(c, t) && Plug(c, t) == tree && tmp == Root(t) && Between(c, key)
      ensures tmp != NULL ==> Item(tmp, key) in Inorder(tree)
      ensures tmp == NULL ==> t == Leaf && parent == Holder(c) && (c.Step? ==> c.side == left)
    {
      tmp, parent, left := root, NULL, false;
      c, t := Top, tree;
      while tmp != NULL
        invariant Holds(c, t) && Plug(c, t) == tree && tmp == Root(t) && Between(c, key)
        invariant parent == Holder(c) && (c.Step? ==> c.side == left)
        decreases t
      {
        parent := tmp;
        PlugInorder(c, t);
        var k := nodes[tmp].key;
        if key == k {
          assert Inorder(tree)[|Before(c)| + |Inorder(t.left)|] == Item(tmp, key);
          return;
        }
        left := key < k;
        tmp := Child(nodes[tmp], left);
        GoDown(c, t, key, left);
        FocusDown(nodes, c, t, left);
        c, t := Down(c, t, left), Kid(t, left);
      }
      assert t == Leaf;
    }

    /** RB_SET and the link from the parent. */
    method Attach(x: Ref, key: int, parent: Ref, left: bool, ghost c: Path)
      requires Holds(c, Leaf) && PathApart(c, {x}) && x != NULL
      requires parent == Holder(c) && (c.Step? ==> c.side == left)
      modifies this`nodes, this`root
      ensures Holds(c, T(Leaf, x, true, key, Leaf)) && nodes.Keys == old(nodes.Keys) + {x}
    {
      ghost var h := nodes;
      nodes := nodes[x := Node(NULL, NULL, parent, true, key)];
      if parent != NULL {
        nodes := nodes[parent := WithChild(nodes[parent], left, x)];
      } else {
        root := x;
      }
      AttachRep(h, nodes, c, x, key);
      TopRefSame(c, NULL, x);
    }

    /** RB_INSERT: the node that already carries the key, or NULL once `x` is in the tree. */
    method Insert(x: Ref, key: int) returns (found: Ref)
      requires Valid() && x != NULL && x !in Refs(tree)
      modifies this
      ensures Valid()
      ensures found != NULL ==>
        Item(found, key) in Inorder(tree) && tree == old(tree) && nodes == old(nodes) && root == old(root)
      ensures found == NULL ==> InsertedInto(Inorder(old(tree)), Inorder(tree), Item(x, key)) && Refs(tree) == Refs(old(tree)) + {x}
    {
      ghost var c: Path, t: Tree;
      var parent: Ref, left: bool;
      found, parent, left, c, t := Descend(key);
      if found == NULL {
        AttachSorted(c, x, key);
        Unplug(c, Leaf);
        FreshApart(c, x, {});
        assert {} + {x} == {x};
        Attach(x, key, parent, left, c);
        AttachInv(c, x, key);
        InsertColor(x, c, T(Leaf, x, true, key, Leaf));
        InsertedRefs(old(tree), tree, Item(x, key));
      }
    }

    // ------------------------------------------------------------------- remove

    method RedSiblingStep(side: bool, parent: Ref, tmp: Ref, ghost c: Path, ghost t: Tree)
      requires Holds(c, t) && RemoveInv(c, t) && c.Step? && IsRed(c.sib)
      requires side == c.side && parent == c.p && tmp == c.sib.ref
      modifies this`nodes, this`root
      ensures Holds(RedSiblingPath(c), t) && nodes.Keys == old(nodes.Keys)
    {
      FocusUp(nodes, c, t);
      ghost var up, whole := c.up, Up(c, t);
      FocusDown(nodes, up, whole, !side);
      SetColor(tmp, false, Down(up, whole, !side), c.sib);
      ghost var c' := c.(sib := c.sib.(red := false));
      FocusUp(nodes, Down(up, whole, !side), c'.sib);
      assert Up(Down(up, whole, !side), c'.sib) == Up(c', t);
      SetColor(parent, true, up, Up(c', t));
      ghost var c'' := c'.(red := true);
      Rotate(side, parent, up, Up(c'', t));
      RemoveRedSibling(c, t);
      ghost var r := RedSiblingPath(c);
      FocusDown(nodes, up, Up(r.up, Up(r, t)), side);
      FocusDown(nodes, r.up, Up(r, t), side);
    }

    method RecolorSiblingStep(tmp: Ref, red: bool, ghost c: Path, ghost t: Tree)
      requires Holds(c, t) && c.Step? && c.sib.T? && tmp == c.sib.ref
      modifies this`nodes
      ensures Holds(c.(sib := c.sib.(red := red)), t) && nodes.Keys == old(nodes.Keys)
    {
      FocusUp(nodes, c, t);
      FocusDown(nodes, c.up, Up(c, t), !c.side);
      ghost var d := Down(c.up, Up(c, t), !c.side);
      SetColor(tmp, red, d, c.sib);
      ghost var c' := c.(sib := c.sib.(red := red));
      FocusUp(nodes, d, c'.sib);
      assert Up(d, c'.sib) == Up(c', t);
      FocusDown(nodes, c.up, Up(c', t), c.side);
    }

    /** The near nephew turns black, the sibling red, and the sibling is rotated down. */
    method NearNephewStep(side: bool, tmp: Ref, ghost c: Path, ghost t: Tree)
      requires Holds(c, t) && c.Step? && c.sib.T? && Kid(c.sib, c.side).T? && side == c.side && tmp == c.sib.ref
      modifies this`nodes, this`root
      ensures Holds(NearNephewPath(c), t) && nodes.Keys == old(nodes.Keys)
    {
      ghost var s := c.sib;
      FocusUp(nodes, c, t);
      FocusDown(nodes, c.up, Up(c, t), !side);
      ghost var d := Down(c.up, Up(c, t), !side);
      FocusDown(nodes, d, s, side);
      var near := Child(nodes[tmp], side);
      SetColor(near, false, Down(d, s, side), Kid(s, side));
      ghost var s' := Join(side, Kid(s, side).(red := false), s.ref, s.red, s.key, Kid(s, !side));
      FocusUp(nodes, Down(d, s, side), Kid(s, side).(red := false));
      assert Up(Down(d, s, side), Kid(s, side).(red := false)) == s';
      SetColor(tmp, true, d, s');
      Rotate(!side, tmp, d, RecoloredSibling(c));
      FocusUp(nodes, d, NearNephewPath(c).sib);
      assert Up(d, NearNephewPath(c).sib) == Up(NearNephewPath(c), t);
      FocusDown(nodes, c.up, Up(NearNephewPath(c), t), side);
    }

    /** The sibling takes the parent's color, parent and far nephew turn black, the parent is rotated down. */
    method FarNephewStep(side: bool, parent: Ref, tmp: Ref, ghost c: Path, ghost t: Tree)
      requires Holds(c, t) && RemoveInv(c, t) && c.Step? && !IsRed(t)
      requires c.sib.T? && !c.sib.red && IsRed(Kid(c.sib, !c.side))
      requires side == c.side && parent == c.p && tmp == c.sib.ref
      modifies this`nodes, this`root
      ensures Holds(c.up, Settled(c, t)) && nodes.Keys == old(nodes.Keys)
    {
      ghost var s := c.sib;
      RecolorSiblingStep(tmp, nodes[parent].red, c, t);
      ghost var s1 := s.(red := c.red);
      ghost var c1 := c.(sib := s1);
      FocusUp(nodes, c1, t);
      SetColor(parent, false, c.up, Up(c1, t));
      ghost var c2 := c1.(red := false);
      FocusDown(nodes, c.up, Up(c2, t), !side);
      ghost var d := Down(c.up, Up(c2, t), !side);
      FocusDown(nodes, d, s1, !side);
      var far := Child(nodes[tmp], !side);
      SetColor(far, false, Down(d, s1, !side), Kid(s, !side));
      FocusUp(nodes, Down(d, s1, !side), Kid(s, !side).(red := false));
      ghost var s2 := Join(side, Kid(s, side), s.ref, c.red, s.key, Kid(s, !side).(red := false));
      assert Up(Down(d, s1, !side), Kid(s, !side).(red := false)) == s2;
      FocusUp(nodes, d, s2);
      assert Up(d, s2) == Unsettled(c, t);
      Rotate(side, parent, c.up, Unsettled(c, t));
      RemoveFarNephew(c, t);
    }

    /** With a black sibling that has a red child, one or two rotations end the repair. */
    method RemoveRotations(side: bool, parent: Ref, sibling: Ref, ghost c: Path, ghost t: Tree)
      returns (ghost t': Tree)
      requires Holds(c, t) && RemoveInv(c, t) && c.Step? && !IsRed(t) && c.sib.T? && !c.sib.red
      requires IsRed(c.sib.left) || IsRed(c.sib.right)
      requires side == c.side && parent == c.p && sibling == c.sib.ref
      modifies this`nodes, this`root
      ensures Holds(Top, t') && RedBlack(t') && Inorder(t') == Inorder(Plug(c, t)) && nodes.Keys == old(nodes.Keys)
    {
      var tmp := sibling;
      ghost var d := c;
      NephewColors(nodes, c, t);
      var far := Child(nodes[tmp], !side);
      if far == NULL || !nodes[far].red {
        NearNephewStep(side, tmp, c, t);
        RemoveNearNephew(c, t);
        NearNephewInorder(c, t);
        d := NearNephewPath(c);
        tmp := Child(nodes[parent], !side);
      }
      FarNephewStep(side, parent, tmp, d, t);
      RemoveFarNephew(d, t);
      RotatedKeeps(d.side, Unsettled(d, t));
      PlugSwap(d.up, Settled(d, t), Up(d, t));
      t' := Plug(d.up, Settled(d, t));
      PlugRedBlack(d.up, Settled(d, t));
      FocusTop(nodes, d.up, Settled(d, t));
    }

    /** One turn of the loop of RB_REMOVE_COLOR. */
    method RemoveTurn(elm: Ref, parent: Ref, ghost c: Path, ghost t: Tree)
      returns (elm': Ref, parent': Ref, stop: bool, ghost c': Path, ghost t': Tree)
      requires Holds(c, t) && RemoveInv(c, t) && c.Step? && !IsRed(t) && elm == Root(t) && parent == c.p
      modifies this`nodes, this`root
      ensures Holds(c', t') && elm' == Root(t') && nodes.Keys == old(nodes.Keys)
      ensures Inorder(Plug(c', t')) == Inorder(Plug(c, t))
      ensures stop ==> c'.Top? && RedBlack(t')
      ensures !stop ==> RemoveInv(c', t') && parent' == Holder(c') && (IsRed(t') || Depth(c') < Depth(c))
    {
      SiblingExists(c, t);
      HoleSide(nodes, c, t);
      c', t', parent' := c, t, parent;
      var side := nodes[parent].left == elm;
      var tmp := Child(nodes[parent], !side);
      if nodes[tmp].red {
        RedSiblingStep(side, parent, tmp, c, t);
        RemoveRedSibling(c, t);
        RedSiblingInorder(c, t);
        c' := RedSiblingPath(c);
        SiblingExists(c', t);
        tmp := Child(nodes[parent], !side);
      }
      NephewColors(nodes, c', t);
      var l, r := nodes[tmp].left, nodes[tmp].right;
      if (l == NULL || !nodes[l].red) && (r == NULL || !nodes[r].red) {
        RecolorSiblingStep(tmp, true, c', t);
        RemoveRecolor(c', t);
        ghost var c1 := c'.(sib := c'.sib.(red := true));
        FocusUp(nodes, c1, t);
        PlugSwap(c'.up, Up(c1, t), Up(c', t));
        elm', parent', stop := parent, nodes[parent].parent, false;
        c', t' := c1.up, Up(c1, t);
      } else {
        t' := RemoveRotations(side, parent, tmp, c', t);
        elm', stop, c' := root, true, Top;
      }
    }

    /** RB_REMOVE_COLOR */
    method RemoveColor(parent0: Ref, x: Ref, ghost c0: Path, ghost t0: Tree)
      requires Holds(c0, t0) && RemoveInv(c0, t0) && x == Root(t0) && parent0 == Holder(c0)
      modifies this
      ensures Holds(Top, tree) && RedBlack(tree) && nodes.Keys == old(nodes.Keys)
      ensures Inorder(tree) == Inorder(Plug(c0, t0))
    {
      var elm, parent, stop := x, parent0, false;
      ghost var c, t := c0, t0;
      RootMeansTop(c, t);
      while !stop && (elm == NULL || !nodes[elm].red) && elm != root
        invariant Holds(c, t) && elm == Root(t) && nodes.Keys == old(nodes.Keys)
        invariant Inorder(Plug(c, t)) == Inorder(Plug(c0, t0))
        invariant elm == root <==> c.Top?
        invariant stop ==> c.Top? && RedBlack(t)
        invariant !stop ==> RemoveInv(c, t) && parent == Holder(c)
        decreases !stop, !IsRed(t), Depth(c)
      {
        elm, parent, stop, c, t := RemoveTurn(elm, parent, c, t);
        RootMeansTop(c, t);
      }
      tree := Plug(c, Blacken(t));
      if !stop {
        RemoveBlacken(c, t);
      }
      PlugSwap(c, t, Blacken(t));
      if elm != NULL {
        SetColor(elm, false, c, t);
      }
      FocusTop(nodes, c, Blacken(t));
    }

    /** `child`, or nothing, takes the place of the node above it. */
    method Splice(x: Ref, child: Ref, parent: Ref, ghost c: Path, ghost t: Tree, ghost k: Tree)
      requires Holds(c, t) && t.T? && ((t.left.Leaf? && k == t.right) || (t.right.Leaf? && k == t.left))
      requires x == t.ref && child == Root(k) && parent == Holder(c)
      modifies this`nodes, this`root
      ensures Holds(c, k) && nodes.Keys == old(nodes.Keys)
      ensures forall n :: n in nodes ==> nodes[n].key == old(nodes)[n].key && nodes[n].red == old(nodes)[n].red
    {
      ghost var h := nodes;
      SpliceSite(h, c, t, k);
      if child != NULL {
        nodes := nodes[child := nodes[child].(parent := parent)];
      }
      if parent != NULL {
        nodes := nodes[parent := WithChild(nodes[parent], nodes[parent].left == x, child)];
      } else {
        root := child;
      }
      SpliceRep(h, nodes, c, t, k);
      TopRefSame(c, x, child);
    }

    /** Node `x`, out of the tree by now, takes over the links and the color of `gone`. */
    method TakePlace(gone: Ref, x: Ref, ghost c: Path, ghost t: Tree)
      requires Holds(c, t) && t.T? && t.ref == gone && t.left.T?
      requires x != NULL && x in nodes && x !in Refs(t) && PathApart(c, Refs(t) + {x})
      modifies this`nodes, this`root
      ensures Holds(c, t.(ref := x, key := old(nodes)[x].key)) && nodes.Keys == old(nodes.Keys)
    {
      ghost var h := nodes;
      ReplaceSite(h, c, t, x);
      nodes := nodes[x := nodes[gone].(key := nodes[x].key)];
      var p := nodes[gone].parent;
      if p != NULL {
        nodes := nodes[p := WithChild(nodes[p], nodes[p].left == gone, x)];
      } else {
        root := x;
      }
      var l, r := nodes[gone].left, nodes[gone].right;
      nodes := nodes[l := nodes[l].(parent := x)];
      if r != NULL {
        nodes := nodes[r := nodes[r].(parent := x)];
      }
      ReplaceRep(h, nodes, c, t, x, h[x].key);
      TopRefSame(c, gone, x);
    }

    /** The color fix-up after a node of color `red` has been cut out above `child`. */
    method Settle(red: bool, parent: Ref, child: Ref, ghost c: Path, ghost t: Tree)
      requires Holds(c, t) && child == Root(t) && parent == Holder(c)
      requires red ==> RedBlack(Plug(c, t))
      requires !red ==> RemoveInv(c, t)
      modifies this
      ensures Holds(Top, tree) && RedBlack(tree) && Inorder(tree) == Inorder(Plug(c, t))
    {
      if !red {
        RemoveColor(parent, child, c, t);
      } else {
        FocusTop(nodes, c, t);
        tree := Plug(c, t);
      }
    }

    /** RB_REMOVE of a node with at most one child. */
    method RemoveOuter(x: Ref, ghost c: Path, ghost t: Tree)
      requires Valid() && Holds(c, t) && Plug(c, t) == tree && t.T? && t.ref == x && (t.left.Leaf? || t.right.Leaf?)
      modifies this
      ensures Valid() && RemovedFrom(Inorder(old(tree)), Inorder(tree), x)
    {
      ghost var k := if t.left.Leaf? then t.right else t.left;
      var child := if nodes[x].left == NULL then nodes[x].right else nodes[x].left;
      var parent, color := nodes[x].parent, nodes[x].red;
      Unplug(c, t);
      SpliceInv(c, t, k);
      SpliceInorder(c, t, k);
      Splice(x, child, parent, c, t, k);
      Settle(color, parent, child, c, k);
    }

    /** The leftmost node below `x`. */
    method Leftmost(x: Ref, ghost d: Path, ghost r: Tree) returns (elm: Ref, ghost q: Path, ghost s: Tree)
      requires Holds(d, r) && r.T? && x == r.ref
      ensures Holds(Extend(q, d), s) && Plug(q, s) == r && Before(q) == [] && s.T? && s.left.Leaf? && elm == s.ref
    {
      elm := x;
      q, s := Top, r;
      while nodes[elm].left != NULL
        invariant Holds(Extend(q, d), s) && Plug(q, s) == r && Before(q) == [] && s.T? && elm == s.ref
        decreases s
      {
        FocusDown(nodes, Extend(q, d), s, true);
        elm := nodes[elm].left;
        q, s := Down(q, s, true), s.left;
      }
      assert Apart(s.left);
    }

    /** RB_REMOVE of a node with two children: its successor takes its place. */
    method RemoveInner(gone: Ref, ghost c: Path, ghost t: Tree)
      requires Valid() && Holds(c, t) && Plug(c, t) == tree && t.T? && t.ref == gone && t.left.T? && t.right.T?
      modifies this
      ensures Valid() && RemovedFrom(Inorder(old(tree)), Inorder(tree), gone)
    {
      ghost var d := Down(c, t, false);
      FocusDown(nodes, c, t, false);
      var elm: Ref;
      ghost var q: Path, s: Tree;
      elm, q, s := Leftmost(nodes[gone].right, d, t.right);
      SuccessorSite(nodes, c, t, q, s);
      var child, parent, color := nodes[elm].right, nodes[elm].parent, nodes[elm].red;
      Splice(elm, child, parent, Extend(q, d), s, s.right);
      FocusOutOf(nodes, q, d, s.right);
      FocusUp(nodes, d, Plug(q, s.right));
      if parent == gone {
        parent := elm;
      }
      TakePlace(gone, elm, c, t.(right := Plug(q, s.right)));
      FocusDown(nodes, c, Succeeded(t, q, s), false);
      FocusInto(nodes, q, Down(c, Succeeded(t, q, s), false), s.right);
      SucceededInv(c, t, q, s);
      SucceededInorder(c, t, q, s);
      Settle(color, parent, child, Extend(q, Down(c, Succeeded(t, q, s), false)), s.right);
    }

    /** RB_REMOVE: exactly the node `x` leaves the tree. */
    method Remove(x: Ref)
      requires Valid() && x in Refs(tree)
      modifies this
      ensures Valid() && RemovedFrom(Inorder(old(tree)), Inorder(tree), x) && Refs(tree) == Refs(old(tree)) - {x}
    {
      ghost var c: Path, t: Tree;
      c, t := Zoom(nodes, Top, tree, x);
      assert Apart(t.left) && Apart(t.right);
      if nodes[x].left == NULL || nodes[x].right == NULL {
        RemoveOuter(x, c, t);
      } else {
        RemoveInner(x, c, t);
      }
      RemovedRefs(old(tree), tree, x);
    }

    // ------------------------------------------------------------------ queries

    /** RB_FIND */
    method Find(key: int) returns (found: Ref)
      requires Valid()
      ensures found != NULL ==> Item(found, key) in Inorder(tree)
      ensures found == NULL ==> forall e :: e in Inorder(tree) ==> e.key != key
    {
      ghost var c: Path, t: Tree;
      var parent: Ref, left: bool;
      found, parent, left, c, t := Descend(key);
      PlugInorder(c, t);
    }

    /** RB_NFIND: the node with the least key that is at least `key`. */
    method FindNext(key: int) returns (res: Ref)
      requires Valid()
      ensures IsLeastFrom(Inorder(tree), key, res)
    {
      var tmp := root;
      ghost var c, t := Top, tree;
      res := NULL;
      while tmp != NULL
        invariant Holds(c, t) && Plug(c, t) == tree && tmp == Root(t) && Between(c, key)
        invariant if After(c) == [] then res == NULL else res != NULL && res == After(c)[0].ref
        decreases t
      {
        PlugInorder(c, t);
        var k := nodes[tmp].key;
        if key == k {
          LeastAtRoot(c, t);
          return tmp;
        }
        if key < k {
          res := tmp;
        }
        tmp := Child(nodes[tmp], key < k);
        GoDown(c, t, key, key < k);
        FocusDown(nodes, c, t, key < k);
        c, t := Down(c, t, key < k), Kid(t, key < k);
      }
      PlugInorder(c, t);
      assert Inorder(tree) == Before(c) + After(c);
      LeastAfterHole(Before(c), After(c), key, res);
    }

    /** RB_MINMAX: the first node in order, or the last one. */
    method MinMax(first: bool) returns (parent: Ref)
      requires Valid()
      ensures Inorder(tree) == [] <==> parent == NULL
      ensures parent != NULL ==>
        parent == Inorder(tree)[if first then 0 else |Inorder(tree)| - 1].ref
    {
      var tmp := root;
      ghost var c, t := Top, tree;
      parent := NULL;
      while tmp != NULL
        invariant Holds(c, t) && Plug(c, t) == tree && tmp == Root(t) && parent == Holder(c)
        invariant c.Step? ==> c.side == first
        invariant if first then Before(c) == [] else After(c) == []
        decreases t
      {
        parent := tmp;
        tmp := Child(nodes[tmp], first);
        FocusDown(nodes, c, t, first);
        c, t := Down(c, t, first), Kid(t, first);
      }
      PlugInorder(c, t);
      assert Inorder(tree) == Before(c) + After(c);
    }

    /** RB_NEXT: the node after `x`, which is number `i` in order. */
    method Next(x: Ref, ghost i: nat) returns (elm: Ref)
      requires Valid() && i < |Inorder(tree)| && Inorder(tree)[i].ref == x
      ensures elm == if i + 1 < |Inorder(tree)| then Inorder(tree)[i + 1].ref else NULL
      ensures i + 1 < |Inorder(tree)| ==> elm != NULL
    {
      ghost var c: Path, t: Tree;
      c, t := ZoomAt(nodes, Top, tree, i);
      PlugInorder(c, t);
      assert Apart(t.right);
      if nodes[x].right != NULL {
        ghost var q: Path, s: Tree;
        FocusDown(nodes, c, t, false);
        elm, q, s := Leftmost(nodes[x].right, Down(c, t, false), t.right);
        PlugInorder(q, s);
        assert Inorder(t.right)[0] == Item(elm, s.key);
        assert Inorder(tree)[i + 1] == Inorder(t.right)[0];
      } else {
        elm := x;
        while nodes[elm].parent != NULL && elm == nodes[nodes[elm].parent].right
          invariant Holds(c, t) && Plug(c, t) == tree && t.T? && elm == t.ref && elm in nodes
          invariant nodes[elm].parent == Holder(c) && (c.Step? ==> c.p in nodes)
          invariant |Before(c)| + |Inorder(t)| == i + 1
          decreases Depth(c)
        {
          HoleSide(nodes, c, t);
          FocusUp(nodes, c, t);
          elm := nodes[elm].parent;
          c, t := c.up, Up(c, t);
        }
        PlugInorder(c, t);
        elm := nodes[elm].parent;
        if c.Step? {
          HoleSide(nodes, c, t);
          assert Inorder(tree)[i + 1] == After(c)[0];
        }
      }
    }

    /** RB_FOREACH: the nodes in the order it visits them. */
    method Foreach() returns (visited: seq<Ref>)
      requires Valid()
      ensures |visited| == |Inorder(tree)|
      ensures forall i :: 0 <= i < |visited| ==> visited[i] == Inorder(tree)[i].ref
    {
      visited := [];
      var x := MinMax(true);
      while x != NULL
        invariant |visited| <= |Inorder(tree)|
        invariant x == NULL <==> |visited| == |Inorder(tree)|
        invariant x != NULL ==> x == Inorder(tree)[|visited|].ref
        invariant forall i :: 0 <= i < |visited| ==> visited[i] == Inorder(tree)[i].ref
        decreases |Inorder(tree)| - |visited|
      {
        ghost var i := |visited|;
        visited := visited + [x];
        x := Next(x, i);
      }
    }

    /** Every search path is at most 2 lg(n + 1) long, after any inserts and removes. */
    lemma HeightOfValid()
      requires Valid()
      ensures Height(tree) <= 2 * Log2(|Inorder(tree)| + 1)
    {
      HeightBound(tree);
    }
  }
}
