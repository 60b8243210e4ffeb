/**
  The size classes of csf/mempool.c in the red-black tree they are kept in.  A node is a tree
  entry.  While all sizes are in one half turn, size_cmp compares how far they are from where it
  begins; looking a class up and storing one are then the lookup in a map and its update.
*/
module PoolTree {
  import opened RbShape
  import opened RbRepair
  import opened MemPool
  import RbTree

  /** A size, as an int holds it, in the half turn from `base` up. */
  predicate Near(base: int, k: int) {
    -TWO31 <= k < TWO31 && Distance(base, k) < TWO31
  }

  /** Some tree entry has the class at this distance. */
  ghost predicate Holds(s: seq<Item>, entry: map<Ref, Class>, d: int, c: Class) {
    exists i :: 0 <= i < |s| && s[i].key == d && s[i].ref in entry && entry[s[i].ref] == c
  }

  ghost predicate Known(classes: map<int, Class>, base: int, d: int) {
    exists k :: k in classes && Distance(base, k) == d
  }

  /** The tree entries are the classes. */
  ghost predicate Shows(s: seq<Item>, entry: map<Ref, Class>, classes: map<int, Class>, base: int) {
    && (forall k :: k in classes ==> Near(base, k) && Holds(s, entry, Distance(base, k), classes[k]))
    && (forall i :: 0 <= i < |s| ==> Known(classes, base, s[i].key))
  }

  /** A distance that no entry has is that of no class. */
  lemma NotThere(s: seq<Item>, entry: map<Ref, Class>, classes: map<int, Class>, base: int, k: int)
    requires Shows(s, entry, classes, base) && forall e :: e in s ==> e.key != Distance(base, k)
    ensures k !in classes
  {
  }

  /** An entry at the distance of a size is the entry of its class. */
  lemma There(s: seq<Item>, entry: map<Ref, Class>, classes: map<int, Class>, base: int, k: int, x: Ref)
    requires Shows(s, entry, classes, base) && Sorted(s) && Near(base, k) && Item(x, Distance(base, k)) in s
    ensures k in classes && x in entry && entry[x] == classes[k]
  {
    var j :| 0 <= j < |s| && s[j] == Item(x, Distance(base, k));
    assert Known(classes, base, s[j].key);
    var k' :| k' in classes && Distance(base, k') == s[j].key;
    FromApart(base, k, k');
    var i :| 0 <= i < |s| && s[i].key == Distance(base, k) && s[i].ref in entry && entry[s[i].ref] == classes[k];
    assert i == j;
  }

  /** A new entry. */
  lemma InsertShows(s: seq<Item>, s': seq<Item>, entry: map<Ref, Class>, classes: map<int, Class>, base: int, k: int, c: Class, x: Ref)
    requires Shows(s, entry, classes, base) && Near(base, k) && k !in classes && x !in entry
    requires InsertedInto(s, s', Item(x, Distance(base, k)))
    ensures Shows(s', entry[x := c], classes[k := c], base)
  {
    var e := Item(x, Distance(base, k));
    var n :| 0 <= n <= |s| && s' == s[..n] + [e] + s[n..];
    forall j | j in classes[k := c] ensures Near(base, j) && Holds(s', entry[x := c], Distance(base, j), classes[k := c][j]) {
      if j == k {
        assert s'[n] == e;
      } else {
        var i :| 0 <= i < |s| && s[i].key == Distance(base, j) && s[i].ref in entry && entry[s[i].ref] == classes[j];
        var i' := if i < n then i else i + 1;
        assert s'[i'] == s[i];
      }
    }
    forall i | 0 <= i < |s'| ensures Known(classes[k := c], base, s'[i].key) {
      if i == n {
        assert k in classes[k := c];
      } else {
        assert s'[i] == s[if i < n then i else i - 1];
        var j :| j in classes && Distance(base, j) == s'[i].key;
        assert j in classes[k := c];
      }
    }
  }

  /** An entry that is changed. */
  lemma ChangeShows(s: seq<Item>, entry: map<Ref, Class>, classes: map<int, Class>, base: int, k: int, c: Class, x: Ref)
    requires Shows(s, entry, classes, base) && RefsOnce(s) && k in classes && x in entry && Item(x, Distance(base, k)) in s
    ensures Shows(s, entry[x := c], classes[k := c], base)
  {
    var n :| 0 <= n < |s| && s[n] == Item(x, Distance(base, k));
    forall j | j in classes ensures Holds(s, entry[x := c], Distance(base, j), classes[k := c][j]) {
      if j == k {
        assert s[n].key == Distance(base, k);
      } else {
        var i :| 0 <= i < |s| && s[i].key == Distance(base, j) && s[i].ref in entry && entry[s[i].ref] == classes[j];
        if i == n {
          FromApart(base, j, k);
        }
        assert s[i].ref != x;
      }
    }
    forall i | 0 <= i < |s| ensures Known(classes[k := c], base, s[i].key) {
      var j :| j in classes && Distance(base, j) == s[i].key;
      assert j in classes[k := c];
    }
  }

  /** Among sizes of the half turn, size_cmp orders by the distance that the tree is keyed by. */
  ghost predicate Compares(classes: map<int, Class>, base: int, k: int) {
    forall j :: j in classes ==> SizeCmp(k, j) == Sign(Distance(base, k) - Distance(base, j))
  }

  lemma NearCompares(classes: map<int, Class>, base: int, k: int)
    requires Near(base, k) && forall j :: j in classes ==> Near(base, j)
    ensures Compares(classes, base, k)
  {
    forall j | j in classes ensures SizeCmp(k, j) == Sign(Distance(base, k) - Distance(base, j)) {
      ArcCmp(base, k, j);
    }
  }

  class SizeTree {
    const tree: RbTree.RbTree
    const base: int               // where the half turn begins
    var entry: map<Ref, Class>    // total_item and mem_head of every tree entry
    var next: Ref                 // an address no entry has had
    ghost var classes: map<int, Class>

    ghost predicate Valid()
      reads this, tree
    {
      && tree.Valid() && next != NULL && Refs(tree.tree) == entry.Keys
      && (forall x :: x in entry ==> x < next)
      && Shows(Inorder(tree.tree), entry, classes, base)
    }

    constructor (base: int)
      ensures Valid() && fresh(tree) && this.base == base && classes == map[]
    {
      this.base := base;
      tree := new RbTree.RbTree();
      entry, next, classes := map[], NULL + 1, map[];
    }

    /** RB_FIND by size_cmp. */
    method Lookup(k: int) returns (c: Option<Class>)
      requires Valid() && Near(base, k)
      ensures c == if k in classes then Some(classes[k]) else None
      ensures Compares(classes, base, k)
    {
      NearCompares(classes, base, k);
      var x := tree.Find(Distance(base, k));
      if x == NULL {
        NotThere(Inorder(tree.tree), entry, classes, base, k);
        return None;
      }
      There(Inorder(tree.tree), entry, classes, base, k, x);
      c := Some(entry[x]);
    }

    /** The class found is changed, or a new one is inserted by RB_INSERT. */
    method Store(k: int, c: Class)
      requires Valid() && Near(base, k)
      modifies this`entry, this`next, this`classes, tree
      ensures Valid() && classes == old(classes)[k := c] && Compares(classes, base, k)
    {
      var x := tree.Find(Distance(base, k));
      ghost var s := Inorder(tree.tree);
      if x == NULL {
        x := next;
        next := next + 1;
        NotThere(s, entry, classes, base, k);
        var found := tree.Insert(x, Distance(base, k));
        InsertShows(s, Inorder(tree.tree), entry, classes, base, k, c, x);
      } else {
        There(s, entry, classes, base, k, x);
        ApartOnce(tree.tree);
        ChangeShows(s, entry, classes, base, k, c, x);
      }
      entry := entry[x := c];
      classes := classes[k := c];
      NearCompares(classes, base, k);
    }
  }
}
