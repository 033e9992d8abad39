/**
 The index of the open file cache: a red-black tree ordered by hash, then by name
 (src/core/ngx_open_file_cache.c, lines 1145-1223).  A name is the bytes before the
 terminating NUL.
 */
module FileIndex {
  import opened RbShape
  import opened RbMemory
  import opened RbOrder
  import opened RbSplice
  import RbTree

  /** The sign of ngx_strcmp. */
  function StrCmp(a: seq<nat>, b: seq<nat>): (r: int)
    ensures -1 <= r <= 1
    ensures r == 0 <==> a == b
  {
    if a == [] && b == [] then 0
    else if a == [] then -1
    else if b == [] then 1
    else if a[0] < b[0] then -1
    else if a[0] > b[0] then 1
    else
      var r := StrCmp(a[1..], b[1..]);
      assert r == 0 <==> a == b by { assert a == [a[0]] + a[1..] && b == [b[0]] + b[1..]; }
      r
  }

  lemma {:induction false} StrCmpFlip(a: seq<nat>, b: seq<nat>)
    ensures StrCmp(a, b) == -StrCmp(b, a)
    decreases |a|
  {
    if a != [] && b != [] { StrCmpFlip(a[1..], b[1..]); }
  }

  lemma {:induction false} StrCmpTrans(a: seq<nat>, b: seq<nat>, c: seq<nat>)
    requires StrCmp(a, b) >= 0 && StrCmp(b, c) >= 0
    ensures StrCmp(a, c) >= 0
    decreases |a|
  {
    if a != [] && b != [] && c != [] && a[0] == b[0] == c[0] { StrCmpTrans(a[1..], b[1..], c[1..]); }
  }

  /** Where ngx_open_file_lookup goes from a node with key k: -1 left, 1 right, 0 found. */
  function Compare(x: Key, k: Key): (r: int)
    ensures r == 0 <==> x == k
  {
    if x.num < k.num then -1 else if x.num > k.num then 1 else StrCmp(x.name, k.name)
  }

  /** The comparison of ngx_open_file_cache_rbtree_insert_value. */
  function FileLess(): Less { (x: Key, y: Key) => Compare(x, y) < 0 }

  lemma FileOrder(K: set<Key>)
    ensures WeakOrder(FileLess(), K)
  {
    var lt := FileLess();
    forall x, y | x in K && y in K && lt(x, y) ensures !lt(y, x) { StrCmpFlip(x.name, y.name); }
    forall x, y, z | x in K && y in K && z in K && !lt(x, y) && !lt(y, z) ensures !lt(x, z) {
      if x.num == y.num == z.num { StrCmpTrans(x.name, y.name, z.name); }
    }
  }

  datatype Found = None | Some(id: Id)

  /** The descent of ngx_open_file_lookup. */
  function Search(t: Tree, key: Key): Found {
    if t.Leaf? then None
    else
      var rc := Compare(key, t.key);
      if rc == 0 then Some(t.id) else if rc < 0 then Search(t.l, key) else Search(t.r, key)
  }

  lemma {:induction false} SearchFinds(t: Tree, key: Key)
    requires Sorted(FileLess(), Inorder(t))
    ensures Search(t, key).Some? ==> (Search(t, key).id, key) in Inorder(t)
    ensures Search(t, key).None? ==> forall e :: e in Inorder(t) ==> e.1 != key
    decreases t
  {
    if t.Br? {
      var l, e, r := Inorder(t.l), (t.id, t.key), Inorder(t.r);
      FileOrder(KeysOf(l + [e] + r) + {key});
      SortedParts(FileLess(), l, e, r, key);
      var rc := Compare(key, t.key);
      if rc < 0 {
        SearchFinds(t.l, key);
        forall x | x in r ensures x.1 != key { assert FileLess()(key, x.1); }
      } else if rc > 0 {
        SearchFinds(t.r, key);
        assert t.key != key;
        RightOf(key, l, e, r);
      }
    }
  }

  lemma RightOf(key: Key, l: Order, e: (Id, Key), r: Order)
    requires Sorted(FileLess(), l + [e] + r) && Compare(key, e.1) > 0
    ensures forall x :: x in l ==> x.1 != key
  {
    forall x | x in l ensures x.1 != key {
      var j :| 0 <= j < |l| && l[j] == x;
      var s := l + [e] + r;
      assert s[j] == x && s[|l|] == e && InOrder(FileLess(), s, j, |l|);
      StrCmpFlip(key.name, e.1.name);
    }
  }

  /** The nodes carry the names of the entries. */
  ghost predicate Lists(s: Order, entries: map<Id, Key>) {
    forall e {:trigger Listed(s, entries, e)} :: Listed(s, entries, e)
  }

  ghost predicate Listed(s: Order, entries: map<Id, Key>, e: (Id, Key)) {
    e in s ==> e.0 in entries && entries[e.0] == e.1
  }

  class FileIndex {
    const tree: RbTree.RbTree
    ghost var entries: map<Id, Key>

    /** The tree is sorted by hash and name and holds the entries. */
    ghost predicate Valid()
      reads this, tree
    {
      && tree.Valid() && tree.lt == FileLess() && Sorted(tree.lt, Inorder(tree.tree))
      && Ids(tree.tree) == entries.Keys && Lists(Inorder(tree.tree), entries)
    }

    constructor (sentinel: Id)
      ensures Valid() && entries == map[] && fresh(tree) && tree.sentinel == sentinel
    {
      tree := new RbTree.RbTree(sentinel, FileLess());
      entries := map[];
    }

    /** ngx_open_file_lookup */
    method Lookup(key: Key) returns (r: Found)
      requires Valid()
      ensures r.Some? ==> r.id in entries && entries[r.id] == key
      ensures r.None? <==> key !in entries.Values
    {
      var node := tree.root;
      ghost var c, t := Top, tree.tree;
      while node != tree.sentinel
        invariant At(tree.H(), c, t) && node == RootId(tree.sentinel, t) && Search(t, key) == Search(tree.tree, key)
        decreases t
      {
        NodeFields(tree.H(), c, t);
        var rc := Compare(key, tree.nodes[node].key);
        if rc == 0 {
          Answer(key);
          return Some(node);
        }
        if rc < 0 {
          FocusLeft(tree.H(), c, t);
          node := tree.nodes[node].left;
          c, t := InL(c, t.id, t.key, t.red, t.r), t.l;
        } else {
          FocusRight(tree.H(), c, t);
          node := tree.nodes[node].right;
          c, t := InR(c, t.l, t.id, t.key, t.red), t.r;
        }
      }
      RbTree.LeafIfSentinel(tree.H(), c, t);
      Answer(key);
      return None;
    }

    lemma Answer(key: Key)
      requires Valid()
      ensures var r := Search(tree.tree, key); r.Some? ==> r.id in entries && entries[r.id] == key
      ensures Search(tree.tree, key).None? <==> key !in entries.Values
    {
      SearchFinds(tree.tree, key);
      InorderIds(tree.tree);
      var s, r := Inorder(tree.tree), Search(tree.tree, key);
      if r.Some? {
        assert Listed(s, entries, (r.id, key));
      } else {
        forall i | i in entries ensures entries[i] != key {
          assert i in IdsOf(s);
          var e :| e in s && e.0 == i;
          assert Listed(s, entries, e);
        }
      }
    }

    /** The key and name are set and the record is inserted: lines 380-384. */
    method Insert(id: Id, key: Key)
      requires Valid() && id !in entries && id != tree.sentinel
      modifies this, tree
      ensures Valid() && entries == old(entries)[id := key]
    {
      ghost var s, first := Inorder(tree.tree), entries;
      if id !in tree.nodes {
        tree.NewNode(id, Node(key, 0, 0, 0, false));
      }
      InorderIds(tree.tree);
      FileOrder(KeysOf(s) + {key});
      ghost var b, a := tree.InsertSorted(id, key);
      assert entries == first;
      OneMore(s, Inorder(tree.tree), (id, key), b, a, first);
      entries := first[id := key];
      InorderIds(tree.tree);
    }

    method Delete(id: Id)
      requires Valid() && id in entries
      modifies this, tree
      ensures Valid() && entries == old(entries) - {id}
    {
      ghost var s, first := Inorder(tree.tree), entries;
      InorderIds(tree.tree);
      tree.NodesOnce();
      assert id in IdsOf(s);
      ghost var b, a := tree.Delete(id);
      assert entries == first;
      OneLess(Inorder(tree.tree), s, (id, old(tree.nodes[id].key)), b, a, first);
      entries := first - {id};
      InorderIds(tree.tree);
    }
  }

  lemma OneMore(s: Order, r: Order, e: (Id, Key), b: Order, a: Order, m: map<Id, Key>)
    requires Without(s, r, e, b, a) && IdsOf(s) == m.Keys && Lists(s, m) && e.0 !in m
    ensures IdsOf(r) == m.Keys + {e.0} && Lists(r, m[e.0 := e.1])
  {
    Grown(s, r, e, b, a);
    var m' := m[e.0 := e.1];
    forall x ensures Listed(r, m', x) {
      assert Listed(s, m, x);
      if x in r { assert x == e || x in s; }
    }
  }

  lemma OneLess(s: Order, r: Order, e: (Id, Key), b: Order, a: Order, m: map<Id, Key>)
    requires Without(s, r, e, b, a) && DistinctIds(r) && IdsOf(r) == m.Keys && Lists(r, m)
    ensures IdsOf(s) == m.Keys - {e.0} && Lists(s, m - {e.0})
  {
    Shrunk(s, r, e, b, a);
    var m' := m - {e.0};
    forall x ensures Listed(s, m', x) {
      assert Listed(r, m, x);
      if x in s { assert x in r && x.0 in IdsOf(s); }
    }
  }
}
