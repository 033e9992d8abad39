/**
 Key order in the red-black tree.  The source descends by a comparison that need not be
 total: duplicates are allowed, and timer keys compare by signed difference, which is an
 order only on keys close together.  What a comparison must satisfy is WeakOrder, and
 only on the keys present.
 */
module RbOrder {
  import opened RbShape
  import opened Words

  type Order = seq<(Id, Key)>

  type Less = (Key, Key) -> bool

  /** r is s with the node e in the place after b. */
  ghost predicate Without(s: Order, r: Order, e: (Id, Key), b: Order, a: Order) {
    r == b + [e] + a && s == b + a
  }

  /** The binary search tree insertion of ngx_rbtree_insert_value and its variants. */
  function InsertLeaf(lt: Less, t: Tree, node: Id, key: Key): Tree {
    match t
    case Leaf => Br(Leaf, node, key, true, Leaf)
    case Br(l, id, k, red, r) =>
      if lt(key, k) then Br(InsertLeaf(lt, l, node, key), id, k, red, r)
        else Br(l, id, k, red, InsertLeaf(lt, r, node, key))
  }

  /** Incomparability is transitive on K and lt is asymmetric there. */
  ghost predicate WeakOrder(lt: Less, K: set<Key>) {
    && (forall x, y :: x in K && y in K && lt(x, y) ==> !lt(y, x))
    && (forall x, y, z :: x in K && y in K && z in K && !lt(x, y) && !lt(y, z) ==> !lt(x, z))
  }

  ghost predicate Sorted(lt: Less, s: Order) {
    forall i, j {:trigger InOrder(lt, s, i, j)} :: InOrder(lt, s, i, j)
  }

  ghost predicate InOrder(lt: Less, s: Order, i: int, j: int) { 0 <= i < j < |s| ==> !lt(s[j].1, s[i].1) }

  function KeysOf(s: Order): set<Key> { set e | e in s :: e.1 }

  ghost predicate AllLess(lt: Less, key: Key, s: Order) { forall e :: e in s ==> lt(key, e.1) }

  ghost predicate NoneLess(lt: Less, key: Key, s: Order) { forall e :: e in s ==> !lt(key, e.1) }

  /** One node is added and no other moves relative to the rest. */
  lemma {:induction false} InsertLeafAdds(lt: Less, t: Tree, node: Id, key: Key) returns (b: Order, a: Order)
    ensures Without(Inorder(t), Inorder(InsertLeaf(lt, t, node, key)), (node, key), b, a)
    ensures Sorted(lt, Inorder(t)) && WeakOrder(lt, KeysOf(Inorder(t)) + {key}) ==>
            NoneLess(lt, key, b) && AllLess(lt, key, a)
    decreases t
  {
    match t
    case Leaf => b, a := [], [];
    case Br(l, id, k, red, r) =>
      var s, e := Inorder(t), (id, k);
      SortedParts(lt, Inorder(l), e, Inorder(r), key);
      if lt(key, k) {
        var a0;
        b, a0 := InsertLeafAdds(lt, l, node, key);
        a := a0 + [e] + Inorder(r);
        assert b + a == Inorder(t);
        assert b + [(node, key)] + a == (b + [(node, key)] + a0) + [e] + Inorder(r);
      } else {
        var b0;
        b0, a := InsertLeafAdds(lt, r, node, key);
        b := Inorder(l) + [e] + b0;
        assert b + a == Inorder(t);
        assert b + [(node, key)] + a == Inorder(l) + [e] + (b0 + [(node, key)] + a);
      }
  }

  /** In a sorted sequence l + [e] + r, a key before e is before all of r; else it is before nothing in l. */
  lemma SortedParts(lt: Less, l: Order, e: (Id, Key), r: Order, key: Key)
    ensures Sorted(lt, l + [e] + r) && WeakOrder(lt, KeysOf(l + [e] + r) + {key}) ==>
      && Sorted(lt, l) && Sorted(lt, r) && WeakOrder(lt, KeysOf(l) + {key}) && WeakOrder(lt, KeysOf(r) + {key})
      && (lt(key, e.1) ==> AllLess(lt, key, r)) && (!lt(key, e.1) ==> NoneLess(lt, key, l))
  {
    var s := l + [e] + r;
    if Sorted(lt, s) && WeakOrder(lt, KeysOf(s) + {key}) {
      assert Sorted(lt, l) by { SortedSlice(lt, s, 0, |l|); assert s[0..|l|] == l; }
      assert Sorted(lt, r) by { SortedSlice(lt, s, |l| + 1, |s|); assert s[|l| + 1..|s|] == r; }
      assert KeysOf(l) <= KeysOf(s) && KeysOf(r) <= KeysOf(s);
      assert e in s && e.1 in KeysOf(s);
      forall x | x in r ensures !lt(x.1, e.1) && x.1 in KeysOf(s) {
        var j :| 0 <= j < |r| && r[j] == x;
        assert s[|l| + 1 + j] == x && s[|l|] == e && InOrder(lt, s, |l|, |l| + 1 + j);
      }
      forall x | x in l ensures !lt(e.1, x.1) && x.1 in KeysOf(s) {
        var j :| 0 <= j < |l| && l[j] == x;
        assert s[j] == x && s[|l|] == e && InOrder(lt, s, j, |l|);
      }
    }
  }

  lemma SortedSlice(lt: Less, s: Order, i: nat, j: nat)
    requires i <= j <= |s| && Sorted(lt, s)
    ensures Sorted(lt, s[i..j])
  {
    forall k, l ensures InOrder(lt, s[i..j], k, l) { assert InOrder(lt, s, i + k, i + l); }
  }

  /** The new node keeps the sequence sorted. */
  lemma SortedWith(lt: Less, s: Order, r: Order, e: (Id, Key), b: Order, a: Order)
    requires Without(s, r, e, b, a) && Sorted(lt, s) && WeakOrder(lt, KeysOf(s) + {e.1}) && NoneLess(lt, e.1, b) &&
             AllLess(lt, e.1, a)
    ensures Sorted(lt, r)
  {
    forall i, j ensures InOrder(lt, r, i, j) {
      if !(0 <= i < j < |r|) {
      } else if j == |b| {
        assert r[i] == b[i] && b[i] in b;
      } else if i == |b| {
        assert r[j] == a[j - |b| - 1] && r[j] in a && r[j] in s && r[j].1 in KeysOf(s);
      } else {
        var i', j' := if i < |b| then i else i - 1, if j < |b| then j else j - 1;
        assert r[i] == s[i'] && r[j] == s[j'] && InOrder(lt, s, i', j');
      }
    }
  }

  /** So does removing one. */
  lemma SortedWithout(lt: Less, s: Order, r: Order, e: (Id, Key), b: Order, a: Order)
    requires Without(s, r, e, b, a) && Sorted(lt, r)
    ensures Sorted(lt, s)
  {
    forall i, j ensures InOrder(lt, s, i, j) {
      if 0 <= i < j < |s| {
        var i', j' := if i < |b| then i else i + 1, if j < |b| then j else j + 1;
        assert s[i] == r[i'] && s[j] == r[j'] && InOrder(lt, r, i', j');
      }
    }
  }

  /** The multiset of nodes changes by exactly the one node. */
  lemma OneNode(s: Order, r: Order, e: (Id, Key), b: Order, a: Order)
    requires Without(s, r, e, b, a)
    ensures multiset(r) == multiset(s) + multiset{e} && |r| == |s| + 1
  {
  }

  function IdsOf(s: Order): set<Id> { set e | e in s :: e.0 }

  ghost predicate DistinctIds(s: Order) {
    forall i, j :: 0 <= i < j < |s| ==> s[i].0 != s[j].0
  }

  lemma {:induction false} InorderIds(t: Tree)
    ensures IdsOf(Inorder(t)) == Ids(t)
    decreases t
  {
    if t.Br? {
      InorderIds(t.l);
      InorderIds(t.r);
      var s := Inorder(t);
      assert forall e :: e in s <==> e in Inorder(t.l) || e == (t.id, t.key) || e in Inorder(t.r);
      assert (t.id, t.key) in s;
    }
  }

  lemma DistinctJoin(l: Order, e: (Id, Key), r: Order)
    requires DistinctIds(l) && DistinctIds(r) && e.0 !in IdsOf(l) && e.0 !in IdsOf(r) && IdsOf(l) !! IdsOf(r)
    ensures DistinctIds(l + [e] + r)
  {
    var s := l + [e] + r;
    forall i, j | 0 <= i < j < |s| ensures s[i].0 != s[j].0 {
      if i < |l| { assert s[i] == l[i] && l[i].0 in IdsOf(l); }
      if j > |l| { assert s[j] == r[j - |l| - 1] && s[j].0 in IdsOf(r); }
      if i > |l| { assert s[i] == r[i - |l| - 1]; }
    }
  }

  lemma Grown(s: Order, r: Order, e: (Id, Key), b: Order, a: Order)
    requires Without(s, r, e, b, a)
    ensures IdsOf(r) == IdsOf(s) + {e.0} && forall x :: x in r <==> x in s || x == e
  {
    assert forall x :: x in r <==> x in s || x == e;
    assert e in r;
  }

  lemma Shrunk(s: Order, r: Order, e: (Id, Key), b: Order, a: Order)
    requires Without(s, r, e, b, a) && DistinctIds(r)
    ensures IdsOf(s) == IdsOf(r) - {e.0} && forall x :: x in s ==> x in r && x.0 != e.0
  {
    assert r[|b|] == e;
    forall x | x in s ensures x in r && x.0 != e.0 {
      if x in b { var i :| 0 <= i < |b| && b[i] == x; assert r[i] == x; }
      else { var i :| 0 <= i < |a| && a[i] == x; assert r[|b| + 1 + i] == x; }
    }
    assert forall x :: x in r ==> x in s || x == e;
  }

  // ----- balance -----

  function Height(t: Tree): nat {
    if t.Leaf? then 0 else 1 + if Height(t.l) > Height(t.r) then Height(t.l) else Height(t.r)
  }

  lemma {:induction false} BlackHeightBounds(t: Tree, n: nat)
    requires NoRedRed(t) && HasBH(t, n)
    ensures Height(t) <= 2 * n + (if IsRed(t) then 1 else 0) && Pow2(n) <= |Inorder(t)| + 1
    decreases t
  {
    if t.Br? {
      var k := if t.red then n else n - 1;
      BlackHeightBounds(t.l, k);
      BlackHeightBounds(t.r, k);
    }
  }

  /** No path is longer than twice the logarithm of the number of nodes. */
  lemma Logarithmic(t: Tree)
    requires RedBlack(t)
    ensures Pow2((Height(t) + 1) / 2) <= |Inorder(t)| + 1
  {
    var n: nat :| HasBH(t, n);
    BlackHeightBounds(t, n);
    PowMono((Height(t) + 1) / 2, n);
  }
}
