/**
 The radix tree of src/core/ngx_radix_tree.c: a longest-prefix-match index with pruning
 and a free list.  Keys and masks are sequences of bits, the highest first, so that the
 32-bit tree and the 128-bit tree are the same code at two widths.  Pointers are node
 ids, NULL is 0.  Allocation succeeds.
 */
module Radix {

  type Id = nat
  type Value = nat
  datatype Option = None | Some(value: Value)   // None is NGX_RADIX_NO_VALUE

  type Bits = seq<bool>

  /** ngx_radix_node_t */
  datatype Node = Node(left: Id, right: Id, parent: Id, value: Option)

  type Store = map<Id, Node>

  /** Where the node of each prefix is. */
  type Places = map<Bits, Id>

  /** Fault is no result but a crash: the parent of the root, which is NULL, is looked at. */
  datatype Result = Ok | Busy | Error | Fault

  /** The length of the prefix a mask selects: the loops stop at its first zero bit. */
  function Lead(mask: Bits): (n: nat)
    ensures n <= |mask| && (forall i :: 0 <= i < n ==> mask[i]) && (n < |mask| ==> !mask[n])
  {
    if mask == [] || !mask[0] then 0 else 1 + Lead(mask[1..])
  }

  // ----- the tree in memory -----

  function Child(at: Places, p: Bits, b: bool): Id { if p + [b] in at then at[p + [b]] else 0 }

  function Init(p: Bits): Bits
    requires p != []
  {
    p[..|p| - 1]
  }

  /** The node of prefix p has the right links; all its own prefixes have nodes. */
  ghost predicate NodeOk(m: Store, at: Places, p: Bits) {
    p in at ==>
      && at[p] != 0 && at[p] in m
      && m[at[p]].left == Child(at, p, false) && m[at[p]].right == Child(at, p, true)
      && (if p == [] then m[at[p]].parent == 0 else Init(p) in at && m[at[p]].parent == at[Init(p)])
  }

  ghost predicate Apart(at: Places, p: Bits, q: Bits) { p in at && q in at && p != q ==> at[p] != at[q] }

  ghost predicate Tree(m: Store, at: Places, root: Id) {
    && [] in at && at[[]] == root
    && (forall p {:trigger NodeOk(m, at, p)} :: NodeOk(m, at, p))
    && (forall p, q {:trigger Apart(at, p, q)} :: Apart(at, p, q))
  }

  ghost predicate Bare(m: Store, at: Places, p: Bits) {
    p in at && at[p] in m && p + [false] !in at && p + [true] !in at && m[at[p]].value == None
  }

  /** Every leaf but the root, and but those in open, carries a value. */
  ghost predicate Leafy(m: Store, at: Places, open: set<Bits>) {
    forall p {:trigger Bare(m, at, p)} :: p != [] && p !in open ==> !Bare(m, at, p)
  }

  /** The nodes from id on are the free list, linked by right. */
  ghost predicate Free(m: Store, at: Places, id: Id, list: seq<Id>)
    decreases |list|
  {
    if list == [] then id == 0
    else
      && id == list[0] && id != 0 && id in m && id !in at.Values && id !in list[1..]
      && Free(m, at, m[id].right, list[1..])
  }

  /** The stored prefixes and their values. */
  ghost predicate Stored(m: Store, at: Places, p: Bits) { p in at && at[p] in m && m[at[p]].value.Some? }

  ghost function Content(m: Store, at: Places): map<Bits, Value> {
    map p | p in at && Stored(m, at, p) :: m[at[p]].value.value
  }

  // ----- longest match -----

  /** The value of the longest stored prefix of key shorter than n. */
  function Best(vals: map<Bits, Value>, key: Bits, n: nat): Option
    requires n <= |key| + 1
  {
    if n == 0 then None
    else if key[..n - 1] in vals then Some(vals[key[..n - 1]])
    else Best(vals, key, n - 1)
  }

  /** The longest stored prefix of the key, if any. */
  ghost predicate Longest(vals: map<Bits, Value>, key: Bits, r: Option) {
    || (exists p :: p in vals && p <= key && r == Some(vals[p]) && forall q :: q in vals && q <= key ==> |q| <= |p|)
    || (r == None && forall q :: q in vals ==> !(q <= key))
  }

  lemma {:induction false} BestIsLongest(vals: map<Bits, Value>, key: Bits, n: nat)
    requires n <= |key| + 1 && forall q :: q in vals && q <= key ==> |q| < n
    ensures Longest(vals, key, Best(vals, key, n))
  {
    if n > 0 {
      var p := key[..n - 1];
      if p in vals {
        assert p <= key;
      } else {
        forall q | q in vals && q <= key ensures |q| < n - 1 { assert q == key[..|q|]; }
        BestIsLongest(vals, key, n - 1);
      }
    }
  }

  /** Without a node for a prefix there is none for a longer one. */
  lemma {:induction false} NothingBelow(m: Store, at: Places, root: Id, p: Bits, q: Bits)
    requires Tree(m, at, root) && p !in at && p <= q
    ensures q !in at
    decreases |q|
  {
    if p != q {
      assert p <= Init(q);
      NothingBelow(m, at, root, p, Init(q));
      assert NodeOk(m, at, q);
    }
  }

  // ----- steps -----

  function Link(n: Node, b: bool, id: Id): Node { if b then n.(right := id) else n.(left := id) }

  lemma InjectivePlus(p: Bits, b: bool, q: Bits)
    ensures p + [b] == q <==> q != [] && Init(q) == p && q[|q| - 1] == b
  {
    if q != [] { assert q == Init(q) + [q[|q| - 1]]; }
  }

  /** A new leaf below p. */
  lemma Grown(m: Store, at: Places, root: Id, p: Bits, b: bool, id: Id, m': Store, at': Places)
    requires Tree(m, at, root) && p in at && p + [b] !in at && id != 0 && id !in at.Values && at[p] in m
    requires at' == at[p + [b] := id] && m' == m[id := Node(0, 0, at[p], None)][at[p] := Link(m[at[p]], b, id)]
    ensures Tree(m', at', root)
  {
    var c := p + [b];
    assert at[p] in at.Values;
    NothingBelow(m, at, root, c, c + [false]);
    NothingBelow(m, at, root, c, c + [true]);
    forall q ensures NodeOk(m', at', q) {
      assert NodeOk(m, at, q) && Apart(at, p, q);
      if q in at { assert at[q] in at.Values; }
      InjectivePlus(q, false, c);
      InjectivePlus(q, true, c);
    }
    forall q, r ensures Apart(at', q, r) {
      assert Apart(at, q, r);
      if q in at { assert at[q] in at.Values; }
      if r in at { assert at[r] in at.Values; }
    }
  }

  /** A leaf is cut off; its node may then change. */
  lemma Pruned(m: Store, at: Places, root: Id, p: Bits, m': Store, at': Places)
    requires Tree(m, at, root) && p != [] && p in at && p + [false] !in at && p + [true] !in at
    requires Init(p) in at && at[Init(p)] in m && at[p] in m && at' == at - {p}
    requires forall i :: i in m && i != at[p] && i != at[Init(p)] ==> i in m' && m'[i] == m[i]
    requires at[Init(p)] in m' && m'[at[Init(p)]] == Link(m[at[Init(p)]], p[|p| - 1], 0)
    ensures Tree(m', at', root)
  {
    forall q ensures NodeOk(m', at', q) {
      assert NodeOk(m, at, q) && Apart(at, p, q) && Apart(at, Init(p), q);
      InjectivePlus(q, false, p);
      InjectivePlus(q, true, p);
      if q in at' && q != [] && Init(q) == p { InjectivePlus(p, q[|q| - 1], q); }
    }
    forall q, r ensures Apart(at', q, r) { assert Apart(at, q, r); }
  }

  lemma Valued(m: Store, at: Places, root: Id, p: Bits, v: Option, m': Store)
    requires Tree(m, at, root) && p in at && at[p] in m && m' == m[at[p] := m[at[p]].(value := v)]
    ensures Tree(m', at, root)
  {
    forall q ensures NodeOk(m', at, q) { assert NodeOk(m, at, q) && Apart(at, p, q); }
  }

  // ----- content -----

  lemma ContentIs(m: Store, at: Places, p: Bits)
    ensures p in Content(m, at) <==> Stored(m, at, p)
    ensures p in Content(m, at) ==> Content(m, at)[p] == m[at[p]].value.value
  {
  }

  /** A new leaf with no value below p. */
  ghost predicate NewLeaf(m: Store, at: Places, root: Id, p: Bits, b: bool, id: Id, m': Store, at': Places) {
    && Tree(m, at, root) && p in at && p + [b] !in at && id != 0 && id !in at.Values && at[p] in m
    && at' == at[p + [b] := id] && m' == m[id := Node(0, 0, at[p], None)][at[p] := Link(m[at[p]], b, id)]
  }

  lemma GrownAt(m: Store, at: Places, root: Id, p: Bits, b: bool, id: Id, m': Store, at': Places, q: Bits)
    requires NewLeaf(m, at, root, p, b, id, m', at')
    ensures q in at ==> q in at' && at'[q] == at[q] && at[q] in m && at[q] in m' && m'[at[q]].value == m[at[q]].value
    ensures q in at' && q !in at ==> q == p + [b] && at'[q] == id && m'[id].value == None
  {
    assert Apart(at, p, q) && NodeOk(m, at, q);
    if q in at { assert at[q] in at.Values; }
    assert at[p] in at.Values;
  }

  lemma GrownBare(m: Store, at: Places, root: Id, p: Bits, b: bool, id: Id, m': Store, at': Places, q: Bits)
    requires NewLeaf(m, at, root, p, b, id, m', at') && q != [] && q != p + [b] && (q == p || !Bare(m, at, q))
    ensures !Bare(m', at', q)
  {
    GrownAt(m, at, root, p, b, id, m', at', q);
    assert p + [b] in at' && (b || p + [false] in at') && (!b || p + [true] in at');
  }

  lemma GrownContent(m: Store, at: Places, root: Id, p: Bits, b: bool, id: Id, m': Store, at': Places)
    requires NewLeaf(m, at, root, p, b, id, m', at')
    ensures Content(m', at') == Content(m, at)
  {
    forall q ensures q in Content(m', at') <==> q in Content(m, at) {
      GrownAt(m, at, root, p, b, id, m', at', q);
      ContentIs(m, at, q);
      ContentIs(m', at', q);
    }
    forall q | q in Content(m, at) ensures Content(m', at')[q] == Content(m, at)[q] {
      GrownAt(m, at, root, p, b, id, m', at', q);
    }
  }

  lemma GrownLeafy(m: Store, at: Places, root: Id, p: Bits, b: bool, id: Id, m': Store, at': Places, open: set<Bits>)
    requires NewLeaf(m, at, root, p, b, id, m', at') && Leafy(m, at, open) && open <= {p}
    ensures Leafy(m', at', {p + [b]})
  {
    forall q | q != [] && q !in {p + [b]} ensures !Bare(m', at', q) {
      assert q == p || !Bare(m, at, q);
      GrownBare(m, at, root, p, b, id, m', at', q);
    }
  }

  lemma ValuedContent(m: Store, at: Places, root: Id, p: Bits, v: Option, m': Store, open: set<Bits>)
    requires Tree(m, at, root) && p in at && at[p] in m && m' == m[at[p] := m[at[p]].(value := v)]
    requires Leafy(m, at, open) && open <= {p} && (v == None ==> p + [false] in at || p + [true] in at)
    ensures Content(m', at) == (if v == None then Content(m, at) - {p} else Content(m, at)[p := v.value]) &&
            Leafy(m', at, {})
  {
    forall q ensures q != p ==> (Stored(m', at, q) <==> Stored(m, at, q)) {
      assert Apart(at, p, q) && NodeOk(m, at, q);
    }
    forall q | q in at && q != p &&
      Stored(m, at, q) ensures m'[at[q]].value == m[at[q]].value { assert Apart(at, p, q); }
    assert Content(m', at) == if v == None then Content(m, at) - {p} else Content(m, at)[p := v.value];
    forall q | q != [] && q !in {} ensures !Bare(m', at, q) {
      assert q == p || !Bare(m, at, q);
      assert Apart(at, p, q) && NodeOk(m, at, q);
    }
  }

  lemma PrunedContent(m: Store, at: Places, root: Id, p: Bits, m': Store, at': Places, open: set<Bits>)
    requires Tree(m, at, root) && p != [] && p in at && p + [false] !in at && p + [true] !in at
    requires Init(p) in at && at[Init(p)] in m && at[p] in m && at' == at - {p}
    requires forall i :: i in m && i != at[p] && i != at[Init(p)] ==> i in m' && m'[i] == m[i]
    requires at[Init(p)] in m' && m'[at[Init(p)]] == Link(m[at[Init(p)]], p[|p| - 1], 0)
    requires Leafy(m, at, open) && open <= {p}
    ensures Content(m', at') == Content(m, at) - {p} && Leafy(m', at', {Init(p)})
  {
    forall q | q in at' ensures at[q] != at[p] && at[q] in m && at[q] in m' && m'[at[q]].value == m[at[q]].value {
      assert Apart(at, p, q) && NodeOk(m, at, q) && Apart(at, Init(p), q);
    }
    forall q ensures q != p ==> (Stored(m', at', q) <==> Stored(m, at, q)) {}
    assert Content(m', at') == Content(m, at) - {p};
    forall q | q != [] && q !in {Init(p)} ensures !Bare(m', at', q) {
      assert q == p || !Bare(m, at, q);
      InjectivePlus(q, false, p);
      InjectivePlus(q, true, p);
    }
  }

  // ----- the free list -----

  lemma {:induction false} FreeFrame(m: Store, at: Places, m': Store, at': Places, id: Id, list: seq<Id>)
    requires Free(m, at, id, list)
    requires forall i :: i in list ==> i in m && i in m' && m'[i] == m[i] && i !in at'.Values
    ensures Free(m', at', id, list)
    decreases |list|
  {
    if list != [] { FreeFrame(m, at, m', at', m[id].right, list[1..]); }
  }

  lemma {:induction false} FreeFacts(m: Store, at: Places, id: Id, list: seq<Id>)
    requires Free(m, at, id, list)
    ensures forall i :: i in list ==> i in m && i != 0 && i !in at.Values
    decreases |list|
  {
    if list != [] { FreeFacts(m, at, m[id].right, list[1..]); }
  }

  lemma GrownFree(m: Store, at: Places, root: Id, p: Bits, b: bool, id: Id, m': Store, at': Places, free: Id,
                  list: seq<Id>)
    requires NewLeaf(m, at, root, p, b, id, m', at') && Free(m, at, free, list) && id !in list
    ensures Free(m', at', free, list)
  {
    FreeFacts(m, at, free, list);
    assert at[p] in at.Values;
    assert at'.Values <= at.Values + {id};
    FreeFrame(m, at, m', at', free, list);
  }

  lemma GrownAll(m: Store, at: Places, root: Id, p: Bits, b: bool, id: Id, m': Store, at': Places, open: set<Bits>,
                 free: Id, list: seq<Id>)
    requires NewLeaf(m, at, root, p, b, id, m', at') && Leafy(m, at, open) && open <= {p}
    requires Free(m, at, free, list) && id !in list
    ensures Tree(m', at', root) && Content(m', at') == Content(m, at) && Leafy(m', at', {p + [b]})
    ensures Free(m', at', free, list)
  {
    Grown(m, at, root, p, b, id, m', at');
    GrownContent(m, at, root, p, b, id, m', at');
    GrownLeafy(m, at, root, p, b, id, m', at', open);
    GrownFree(m, at, root, p, b, id, m', at', free, list);
  }

  // ----- the tree object -----

  class RadixTree {
    const width: nat
    var nodes: Store
    var root: Id
    var free: Id
    var next: Id              // nodes from here on were never handed out
    ghost var at: Places
    ghost var list: seq<Id>

    /** The tree, with the leaves in open still waiting for a value or for removal. */
    ghost predicate Working(open: set<Bits>)
      reads this
    {
      && Tree(nodes, at, root) && Leafy(nodes, at, open) && Free(nodes, at, free, list)
      && next > 0 && (forall i :: i in nodes ==> i < next) && forall p :: p in at ==> |p| <= width
    }

    ghost predicate Valid()
      reads this
    {
      Working({})
    }

    ghost function Entries(): map<Bits, Value>
      reads this
    {
      Content(nodes, at)
    }

    /** ngx_radix_tree_create without preallocation */
    constructor (width: nat)
      ensures Valid() && Entries() == map[] && this.width == width
    {
      this.width := width;
      nodes, root, free, next := map[1 := Node(0, 0, 0, None)], 1, 0, 2;
      at, list := map[[] := 1], [];
      new;
      forall p ensures NodeOk(nodes, at, p) {}
    }

    /** ngx_radix_alloc */
    method Alloc(ghost open: set<Bits>) returns (p: Id)
      requires Working(open)
      modifies this`free, this`next, this`nodes, this`list
      ensures Working(open) && p != 0 && p in nodes && p !in at.Values && p !in list && Entries() == old(Entries())
      ensures forall i :: i in old(nodes) ==> i in nodes && nodes[i] == old(nodes)[i]
    {
      if free != 0 {
        p := free;
        FreeFacts(nodes, at, free, list);
        free := nodes[free].right;
        list := list[1..];
        return;
      }
      p := next;
      ghost var m := nodes;
      nodes := nodes[p := Node(0, 0, 0, None)];
      next := next + 1;
      Unused(m, at, root, p);
      FreeFacts(m, at, free, list);
      FreeFrame(m, at, nodes, at, free, list);
      OtherNode(m, at, root, p, nodes, open);
    }

    /** Lines 145-165: a new node below the node of prefix p. */
    method Grow(node: Id, b: bool, ghost p: Bits, ghost open: set<Bits>) returns (leaf: Id)
      requires Working(open) && open <= {p} && p in at && at[p] == node && p + [b] !in at && |p| < width
      modifies this`free, this`next, this`nodes, this`list, this`at
      ensures Working({p + [b]}) && at == old(at)[p + [b] := leaf] && Entries() == old(Entries())
    {
      leaf := Alloc(open);
      Attach(leaf, node, b, p, open);
    }

    method Attach(leaf: Id, node: Id, b: bool, ghost p: Bits, ghost open: set<Bits>)
      requires Working(open) && open <= {p} && p in at && at[p] == node && p + [b] !in at && |p| < width
      requires leaf != 0 && leaf in nodes && leaf !in at.Values && leaf !in list
      modifies this`nodes, this`at
      ensures Working({p + [b]}) && at == old(at)[p + [b] := leaf] && Entries() == old(Entries())
    {
      ghost var m, places := nodes, at;
      assert NodeOk(m, at, p) && at[p] in at.Values;
      nodes := nodes[leaf := Node(0, 0, node, None)];
      nodes := nodes[node := Link(nodes[node], b, leaf)];
      at := at[p + [b] := leaf];
      assert NewLeaf(m, places, root, p, b, leaf, nodes, at);
      GrownAll(m, places, root, p, b, leaf, nodes, at, open, free, list);
    }

    /** node->value = value */
    method SetValue(node: Id, v: Option, ghost p: Bits, ghost open: set<Bits>)
      requires Working(open) && open <= {p} && p in at && at[p] == node &&
               (v == None ==> p + [false] in at || p + [true] in at)
      modifies this`nodes
      ensures Working({}) && Entries() == if v == None then old(Entries()) - {p} else old(Entries())[p := v.value]
    {
      ghost var m := nodes;
      assert NodeOk(m, at, p) && at[p] in at.Values;
      nodes := nodes[node := nodes[node].(value := v)];
      Valued(m, at, root, p, v, nodes);
      ValuedContent(m, at, root, p, v, nodes, open);
      FreeFacts(m, at, free, list);
      FreeFrame(m, at, nodes, at, free, list);
    }

    /** Lines 115-134: the last node on the way to the prefix. */
    method Walk(key: Bits, mask: Bits) returns (node: Id, d: nat, next: Id)
      requires Valid() && |key| == |mask| == width
      ensures d <= Lead(mask) && key[..d] in at && node == at[key[..d]]
      ensures if next == 0 then d < Lead(mask) && key[..d + 1] !in at else d == Lead(mask)
    {
      node, d, next := root, 0, root;
      assert NodeOk(nodes, at, []);
      while d < width && mask[d]
        invariant 0 <= d <= Lead(mask) && key[..d] in at && node == at[key[..d]] && next == node != 0
      {
        assert NodeOk(nodes, at, key[..d]) && key[..d + 1] == key[..d] + [key[d]];
        next := if key[d] then nodes[node].right else nodes[node].left;
        if next == 0 {
          ChildOrNone(nodes, at, root, key[..d], key[d]);
          break;
        }
        ChildOrNone(nodes, at, root, key[..d], key[d]);
        d := d + 1;
        node := next;
      }
    }

    /** ngx_radix32tree_insert, ngx_radix128tree_insert */
    method Insert(key: Bits, mask: Bits, value: Value) returns (r: Result)
      requires Valid() && |key| == |mask| == width
      modifies this`free, this`next, this`nodes, this`list, this`at
      ensures Valid() && r == if key[..Lead(mask)] in old(Entries()) then Busy else Ok
      ensures Entries() == if r == Ok then old(Entries())[key[..Lead(mask)] := value] else old(Entries())
    {
      var node, d, next := Walk(key, mask);
      ghost var p := key[..Lead(mask)];
      if next != 0 {
        assert NodeOk(nodes, at, p);
        ContentIs(nodes, at, p);
        if nodes[node].value != None {
          return Busy;
        }
        SetValue(node, Some(value), p, {});
        return Ok;
      }
      NothingBelow(nodes, at, root, key[..d + 1], p);
      ContentIs(nodes, at, p);
      ghost var open: set<Bits> := {};
      while d < width && mask[d]
        invariant 0 <= d <= Lead(mask) && key[..d] in at && node == at[key[..d]] &&
                  (d < Lead(mask) ==> key[..d + 1] !in at)
        invariant Working(open) && open <= {key[..d]} && Entries() == old(Entries())
      {
        assert key[..d + 1] == key[..d] + [key[d]];
        if d + 1 < Lead(mask) { NothingBelow(nodes, at, root, key[..d + 1], key[..d + 2]); }
        var leaf := Grow(node, key[d], key[..d], open);
        open := {key[..d + 1]};
        d := d + 1;
        node := leaf;
      }
      SetValue(node, Some(value), p, open);
      r := Ok;
    }

    /** Lines 207-215: a leaf is cut off and put on the free list. */
    method Cut(node: Id, ghost p: Bits, ghost open: set<Bits>) returns (parent: Id)
      requires Working(open) && open <= {p} && p != [] && p in at && at[p] == node && p + [false] !in at &&
               p + [true] !in at
      modifies this`free, this`nodes, this`list, this`at
      ensures Working({Init(p)}) && at == old(at) - {p} && Init(p) in at && at[Init(p)] == parent &&
              Entries() == old(Entries()) - {p}
    {
      ghost var m, places := nodes, at;
      CutFacts(m, at, root, p);
      FreeFacts(m, at, free, list);
      parent := nodes[node].parent;
      if nodes[parent].right == node {
        nodes := nodes[parent := nodes[parent].(right := 0)];
      } else {
        nodes := nodes[parent := nodes[parent].(left := 0)];
      }
      nodes := nodes[node := nodes[node].(right := free)];
      at := at - {p};
      Pruned(m, places, root, p, nodes, at);
      PrunedContent(m, places, root, p, nodes, at, open);
      NoLongerThere(m, places, root, p);
      Freed(m, places, nodes, at, free, list, node);
      free := node;
      list := [node] + list;
    }

    /** Lines 206-230: the leaf goes, and with it every node above it that is left without use. */
    method Prune(node0: Id, ghost p: Bits)
      requires Valid() && p != [] && p in at && at[p] == node0 && p + [false] !in at && p + [true] !in at
      modifies this`free, this`nodes, this`list, this`at
      ensures Valid() && Entries() == old(Entries()) - {p}
    {
      var node := Cut(node0, p, {});
      ghost var q := Init(p);
      while true
        invariant Working({q}) && q in at && at[q] == node && Entries() == old(Entries()) - {p}
        decreases |q|
      {
        ChildOrNone(nodes, at, root, q, false);
        ChildOrNone(nodes, at, root, q, true);
        if nodes[node].right != 0 || nodes[node].left != 0 {
          break;
        }
        if nodes[node].value != None {
          break;
        }
        if nodes[node].parent == 0 {
          RootOnly(nodes, at, root, q);
          break;
        }
        NotHeld(nodes, at, root, q);
        node := Cut(node, q, {q});
        q := Init(q);
      }
      Settled(nodes, at, q);
    }

    /** Lines 179-191: the node of the prefix, or NULL. */
    method Seek(key: Bits, mask: Bits) returns (node: Id)
      requires Valid() && |key| == |mask| == width
      ensures if node == 0 then key[..Lead(mask)] !in at else key[..Lead(mask)] in at && node == at[key[..Lead(mask)]]
    {
      var d := 0;
      node := root;
      assert NodeOk(nodes, at, []) && key[..0] == [];
      while node != 0 && d < width && mask[d]
        invariant 0 <= d <= Lead(mask) && (node == 0 ==> key[..d] !in at) &&
                  (node != 0 ==> key[..d] in at && node == at[key[..d]])
        decreases width - d
      {
        assert key[..d + 1] == key[..d] + [key[d]];
        ChildOrNone(nodes, at, root, key[..d], key[d]);
        node := if key[d] then nodes[node].right else nodes[node].left;
        d := d + 1;
      }
      if node == 0 { NothingBelow(nodes, at, root, key[..d], key[..Lead(mask)]); }
    }

    /** ngx_radix32tree_delete, ngx_radix128tree_delete */
    method Delete(key: Bits, mask: Bits) returns (r: Result)
      requires Valid() && |key| == |mask| == width
      modifies this`free, this`nodes, this`list, this`at
      ensures Valid() && (r == Fault <==> Lead(mask) == 0 && forall p :: p in old(Entries()) ==> p == [])
      ensures r != Fault ==> r == if key[..Lead(mask)] in old(Entries()) then Ok else Error
      ensures Entries() == if r == Fault then old(Entries()) else old(Entries()) - {key[..Lead(mask)]}
    {
      NothingBelowRoot();
      var node := Seek(key, mask);
      ghost var p := key[..Lead(mask)];
      ContentIs(nodes, at, p);
      if node == 0 {
        assert Entries() == Entries() - {p};
        return Error;
      }
      ChildOrNone(nodes, at, root, p, false);
      ChildOrNone(nodes, at, root, p, true);
      if nodes[node].right != 0 || nodes[node].left != 0 {
        if nodes[node].value != None {
          SetValue(node, None, p, {});
          return Ok;
        }
        assert Entries() == Entries() - {p};
        return Error;
      }
      if nodes[node].parent == 0 {
        RootOnly(nodes, at, root, p);
        return Fault;
      }
      assert NodeOk(nodes, at, p) && !Bare(nodes, at, p);
      Prune(node, p);
      return Ok;
    }

    /** The root has no children exactly if nothing is stored but perhaps the empty prefix. */
    lemma NothingBelowRoot()
      requires Valid()
      ensures root in nodes
      ensures nodes[root].left == 0 && nodes[root].right == 0 <==> forall p :: p in Entries() ==> p == []
    {
      ChildOrNone(nodes, at, root, [], false);
      ChildOrNone(nodes, at, root, [], true);
      if nodes[root].left == 0 && nodes[root].right == 0 {
        forall p | p in Entries() ensures p == [] {
          ContentIs(nodes, at, p);
          if p != [] {
            StartsBelow(p);
            assert false;
          }
        }
      } else {
        var p := StoredBelow(if nodes[root].left != 0 then [] + [false] else [] + [true]);
      }
    }

    lemma StartsBelow(p: Bits)
      requires Valid() && p in at && p != []
      ensures [] + [false] in at || [] + [true] in at
    {
      assert [] + [p[0]] == if p[0] then [] + [true] else [] + [false];
      if [] + [p[0]] !in at { NothingBelow(nodes, at, root, [] + [p[0]], p); }
    }

    /** Below every node there is a leaf, which carries a value. */
    lemma {:induction false} StoredBelow(q: Bits) returns (p: Bits)
      requires Valid() && q in at && q != []
      ensures q <= p && p in Entries()
      decreases width + 1 - |q|
    {
      if q + [false] in at {
        p := StoredBelow(q + [false]);
      } else if q + [true] in at {
        p := StoredBelow(q + [true]);
      } else {
        p := q;
        assert NodeOk(nodes, at, q) && !Bare(nodes, at, q);
        ContentIs(nodes, at, q);
      }
    }

    /**
     ngx_radix32tree_find, ngx_radix128tree_find: the longest stored prefix wins.  beyond says that
     the loop looked at a bit behind the last bit of the key; for a 128-bit key that is key[16].
     */
    method Find(key: Bits) returns (value: Option, ghost beyond: bool)
      requires Valid() && |key| == width
      ensures Longest(Entries(), key, value)
      ensures width > 0 ==> (beyond <==> key in Entries())
    {
      var node, d := root, 0;
      value := None;
      assert NodeOk(nodes, at, []) && key[..0] == [];
      while node != 0
        invariant 0 <= d <= width + 1 && value == Best(Entries(), key, d)
        invariant node == 0 ==> d <= width ==> key[..d] !in at
        invariant node != 0 ==> d <= width && key[..d] in at && node == at[key[..d]]
        invariant d == width + 1 ==> key in at
        decreases width + 1 - d, if node != 0 then 1 else 0
      {
        assert NodeOk(nodes, at, key[..d]);
        ContentIs(nodes, at, key[..d]);
        if nodes[node].value != None {
          value := nodes[node].value;
        }
        var bit := d < width && key[d];
        if d < width { assert key[..d + 1] == key[..d] + [key[d]]; } else { assert key[..d] == key; }
        ChildOrNone(nodes, at, root, key[..d], bit);
        node := if bit then nodes[node].right else nodes[node].left;
        d := d + 1;
      }
      beyond := d == width + 1;
      NoLonger(key, d);
      BestIsLongest(Entries(), key, d);
      if width > 0 { ReadsBeyond(key, d); }
    }

    /** The walk passes a node for the whole key exactly if the whole key is stored. */
    lemma ReadsBeyond(key: Bits, d: nat)
      requires Valid() && |key| == width > 0 && d <= width + 1
      requires d <= width ==> key[..d] !in at
      requires d == width + 1 ==> key in at
      ensures d == width + 1 <==> key in Entries()
    {
      ContentIs(nodes, at, key);
      if d <= width {
        NothingBelow(nodes, at, root, key[..d], key);
      } else {
        assert NodeOk(nodes, at, key) && !Bare(nodes, at, key);
      }
    }

    lemma NoLonger(key: Bits, d: nat)
      requires Valid() && |key| == width && d <= width + 1 && (d <= width ==> key[..d] !in at)
      ensures forall q :: q in Entries() && q <= key ==> |q| < d
    {
      forall q | q in Entries() && q <= key ensures |q| < d {
        ContentIs(nodes, at, q);
        if d <= |q| { NothingBelow(nodes, at, root, key[..d], q); }
      }
    }
  }

  /** Deleting from a new tree, with a mask of zeros, crashes. */
  method DeleteFaults() returns (r: Result)
    ensures r == Fault
  {
    var tree := new RadixTree(32);
    var zeros := seq(32, _ => false);
    r := tree.Delete(zeros, zeros);
  }

  lemma CutFacts(m: Store, at: Places, root: Id, p: Bits)
    requires Tree(m, at, root) && p != [] && p in at
    ensures at[p] in m && Init(p) in at && at[Init(p)] in m && at[Init(p)] != at[p] && m[at[p]].parent == at[Init(p)]
    ensures at[p] in at.Values && at[Init(p)] in at.Values && at[p] != 0
    ensures p == Init(p) + [p[|p| - 1]] && (m[at[Init(p)]].right == at[p] <==> p[|p| - 1])
  {
    assert NodeOk(m, at, p) && NodeOk(m, at, Init(p)) && Apart(at, p, Init(p));
    assert p == Init(p) + [p[|p| - 1]];
    assert Apart(at, Init(p) + [true], Init(p) + [false]);
  }

  lemma NoLongerThere(m: Store, at: Places, root: Id, p: Bits)
    requires Tree(m, at, root) && p in at
    ensures at[p] !in (at - {p}).Values && (at - {p}).Values <= at.Values
  {
    forall q | q in at - {p} ensures at[q] != at[p] { assert Apart(at, p, q); }
  }

  /** The cut node heads the free list. */
  lemma Freed(m: Store, at: Places, m': Store, at': Places, free: Id, list: seq<Id>, node: Id)
    requires Free(m, at, free, list) && node != 0 && node in m' && node in at.Values && node !in at'.Values &&
             m'[node].right == free
    requires at'.Values <= at.Values && forall i :: i in m && i !in at.Values ==> i in m' && m'[i] == m[i]
    ensures Free(m', at', node, [node] + list)
  {
    FreeFacts(m, at, free, list);
    FreeFrame(m, at, m', at', free, list);
    assert ([node] + list)[1..] == list;
  }

  lemma RootOnly(m: Store, at: Places, root: Id, q: Bits)
    requires Tree(m, at, root) && q in at && at[q] in m && m[at[q]].parent == 0
    ensures q == []
  {
    assert NodeOk(m, at, q) && (q != [] ==> NodeOk(m, at, Init(q)));
  }

  /** A node without a value can go; one that is not the root has a parent. */
  lemma NotHeld(m: Store, at: Places, root: Id, q: Bits)
    requires Tree(m, at, root) && q in at && at[q] in m && m[at[q]].value == None && m[at[q]].parent != 0
    ensures q != [] && Content(m, at) - {q} == Content(m, at)
  {
    assert NodeOk(m, at, q);
    ContentIs(m, at, q);
  }

  lemma Settled(m: Store, at: Places, q: Bits)
    requires Leafy(m, at, {q}) && (q == [] || !Bare(m, at, q))
    ensures Leafy(m, at, {})
  {
    forall p | p != [] && p !in {} ensures !Bare(m, at, p) { assert p == q || !Bare(m, at, p); }
  }

  lemma ChildOrNone(m: Store, at: Places, root: Id, p: Bits, b: bool)
    requires Tree(m, at, root) && p in at
    ensures at[p] in m && at[p] != 0
    ensures var next := if b then m[at[p]].right else m[at[p]].left;
      if next == 0 then p + [b] !in at else p + [b] in at && at[p + [b]] == next
  {
    assert NodeOk(m, at, p) && NodeOk(m, at, p + [b]);
  }

  lemma Unused(m: Store, at: Places, root: Id, id: Id)
    requires Tree(m, at, root) && id !in m
    ensures id !in at.Values
  {
    forall p | p in at ensures at[p] != id { assert NodeOk(m, at, p); }
  }

  /** A node outside the tree may change. */
  lemma OtherNode(m: Store, at: Places, root: Id, id: Id, m': Store, open: set<Bits>)
    requires Tree(m, at, root) && Leafy(m, at, open) && id !in at.Values &&
             (forall i :: i in m && i != id ==> i in m' && m'[i] == m[i])
    ensures Tree(m', at, root) && Leafy(m', at, open) && Content(m', at) == Content(m, at)
  {
    forall p | p in at ensures at[p] in m && at[p] in m' && m'[at[p]] == m[at[p]] {
      assert NodeOk(m, at, p) && at[p] in at.Values;
    }
    forall p ensures NodeOk(m', at, p) { assert NodeOk(m, at, p); }
    forall p ensures (Bare(m', at, p) <==> Bare(m, at, p)) && (Stored(m', at, p) <==> Stored(m, at, p)) {}
  }
}
