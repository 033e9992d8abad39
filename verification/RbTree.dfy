/**
 The red-black tree of src/core/ngx_rbtree.c: insertion and deletion with parent links
 and a shared sentinel.  Pointers are node ids, NULL is 0; the function pointer
 tree->insert is represented by the order lt it descends by.
 */
module RbTree {
  import opened RbShape
  import opened RbMemory
  import opened RbOrder
  import opened RbDelete
  import opened RbSplice

  /** A new node below the parent on top of the context. */
  lemma AttachAt(h: Heap, h': Heap, c: Ctx, node: Id, key: Key)
    requires At(h, c, Leaf) && !c.Top? && node != h.s && node !in CtxIds(c)
    requires h'.s == h.s && h'.root == h.root && c.id in h.m
    requires h'.m == h.m[c.id := if c.InL? then h.m[c.id].(left := node)
               else h.m[c.id].(right := node)][node := Node(key, h.s, h.s, c.id, true)]
    ensures At(h', c, Br(Leaf, node, key, true, Leaf))
  {
    RootInCtx(h.m, h.s, h.root, h.s, c);
    Rehang(h.m, h'.m, h.s, h.root, h'.root, h.s, node, c);
  }

  class RbTree {
    const sentinel: Id
    const lt: (Key, Key) -> bool
    var nodes: Store
    var root: Id
    ghost var tree: Tree

    ghost function H(): Heap
      reads this
    {
      Heap(nodes, root, sentinel)
    }

    ghost predicate Valid()
      reads this
    {
      At(H(), Top, tree) && RedBlack(tree)
    }

    /** ngx_rbtree_init */
    constructor (sentinel: Id, lt: (Key, Key) -> bool)
      ensures Valid() && tree == Leaf && this.sentinel == sentinel && this.lt == lt && nodes.Keys == {sentinel}
    {
      this.sentinel, this.lt, root, tree := sentinel, lt, sentinel, Leaf;
      nodes := map[sentinel := Node(Key(0, []), 0, 0, 0, false)];
      new;
      assert HasBH(tree, 0);
    }

    // ----- single steps on the nodes -----

    method SetColor(id: Id, red: bool)
      requires id in nodes
      modifies this`nodes
      ensures H() == SetRed(old(H()), id, red)
    {
      nodes := nodes[id := nodes[id].(red := red)];
    }

    method RotLeft(node: Id)
      requires node in nodes && nodes[node].right in nodes &&
               CanRotate(H(), node, nodes[node].right, nodes[nodes[node].right].left)
      modifies this`nodes, this`root
      ensures H() == RotateLeft(old(H()), node)
    {
      var temp := nodes[node].right;
      var inner := nodes[temp].left;
      nodes := nodes[node := nodes[node].(right := inner)];
      if inner != sentinel {
        nodes := nodes[inner := nodes[inner].(parent := node)];
      }
      nodes := nodes[temp := nodes[temp].(parent := nodes[node].parent)];
      LinkFromAbove(node, temp);
      nodes := nodes[temp := nodes[temp].(left := node)];
      nodes := nodes[node := nodes[node].(parent := temp)];
    }

    method RotRight(node: Id)
      requires node in nodes && nodes[node].left in nodes &&
               CanRotate(H(), node, nodes[node].left, nodes[nodes[node].left].right)
      modifies this`nodes, this`root
      ensures H() == RotateRight(old(H()), node)
    {
      var temp := nodes[node].left;
      var inner := nodes[temp].right;
      nodes := nodes[node := nodes[node].(left := inner)];
      if inner != sentinel {
        nodes := nodes[inner := nodes[inner].(parent := node)];
      }
      nodes := nodes[temp := nodes[temp].(parent := nodes[node].parent)];
      LinkFromAbove(node, temp);
      nodes := nodes[temp := nodes[temp].(right := node)];
      nodes := nodes[node := nodes[node].(parent := temp)];
    }

    /** Lines 340-348 and 370-378, 187-206, 227-236: what led to node leads to temp. */
    method LinkFromAbove(node: Id, temp: Id)
      requires node in nodes && (node != root ==> nodes[node].parent in nodes)
      modifies this`nodes, this`root
      ensures H() == Relink(old(H()), node, temp)
    {
      if node == root {
        root := temp;
      } else {
        var p := nodes[node].parent;
        if node == nodes[p].left {
          nodes := nodes[p := nodes[p].(left := temp)];
        } else {
          nodes := nodes[p := nodes[p].(right := temp)];
        }
      }
    }

    // ----- insertion -----

    /** Lines 54-58 and 74-78 */
    method Recolor(node: Id, uncle: Id, ghost c: Ctx, ghost t: Tree) returns (up: Id, ghost g: Tree)
      requires At(H(), c, t) && t.Br? && t.id == node && InsertInv(c, t) && TopRed(c) && !c.up.Top?
      requires uncle == (if c.up.InL? then RootId(sentinel, c.up.r) else RootId(sentinel, c.up.l))
      requires if c.up.InL? then IsRed(c.up.r) else IsRed(c.up.l)
      modifies this`nodes
      ensures At(H(), c.up.up, g) && g.Br? && g.id == up && InsertInv(c.up.up, g)
      ensures Inorder(Plug(c.up.up, g)) == Inorder(Plug(c, t)) && nodes.Keys == old(nodes.Keys)
    {
      ParentOf(H(), c, t);
      FocusUp(H(), c, t);
      ghost var p := Fill(c, t);
      ParentOf(H(), c.up, p);
      up := nodes[nodes[node].parent].parent;
      RecolorAt(H(), c.up, p, false);
      SetColor(nodes[node].parent, false);
      p := p.(red := false);
      FocusUp(H(), c.up, p);
      g := Fill(c.up, p);
      ghost var u := if c.up.InL? then c.up.r else c.up.l;
      if c.up.InL? { FocusRight(H(), c.up.up, g); } else { FocusLeft(H(), c.up.up, g); }
      ghost var cu := if c.up.InL? then InR(c.up.up, p, g.id, g.key, g.red) else InL(c.up.up, g.id, g.key, g.red, p);
      RecolorAt(H(), cu, u, false);
      SetColor(uncle, false);
      FocusUp(H(), cu, Blacken(u));
      g := Fill(cu, Blacken(u));
      RecolorAt(H(), c.up.up, g, true);
      SetColor(up, true);
      g := g.(red := true);
      InsertRecolor(c, t, p, g);
    }

    /** Lines 61-68: the parent is a left child and the uncle is black. */
    method TurnLeft(node0: Id, ghost c0: Ctx, ghost t0: Tree) returns (node: Id, ghost c: Ctx, ghost t: Tree)
      requires At(H(), c0, t0) && t0.Br? && t0.id == node0 && InsertInv(c0, t0) && TopRed(c0) && c0.up.InL? &&
               !IsRed(c0.up.r)
      modifies this`nodes, this`root
      ensures At(H(), c, t) && t.Br? && t.id == node && InsertInv(c, t) && !TopRed(c) && !c.Top?
      ensures Depth(c) < Depth(c0) && Inorder(Plug(c, t)) == Inorder(Plug(c0, t0)) && nodes.Keys == old(nodes.Keys)
    {
      node, c, t := node0, c0, t0;
      GrandParent(c);
      ParentOf(H(), c, t);
      FocusUp(H(), c, t);
      ghost var p := Fill(c, t);
      ghost var cp := c.up;
      if node == nodes[nodes[node].parent].right {
        node := nodes[node].parent;
        RotateLeftAt(H(), cp, p);
        RotLeft(node);
        p := RotL(p);
        t := p.l;
        FocusLeft(H(), cp, p);
      } else {
        t := t0;
        FocusLeft(H(), cp, p);
      }
      // p is the parent of node, a red left child of the grandparent
      ghost var ct := InL(cp, p.id, p.key, p.red, p.r);
      ParentOf(H(), ct, t);
      RecolorAt(H(), cp, p, false);
      SetColor(nodes[node].parent, false);
      p := p.(red := false);
      ParentOf(H(), cp, p);
      FocusUp(H(), cp, p);
      ghost var g := Fill(cp, p);
      RecolorAt(H(), cp.up, g, true);
      FocusLeft(H(), cp, p);
      ParentOf(H(), InL(cp, p.id, p.key, p.red, p.r), t);
      SetColor(nodes[nodes[node].parent].parent, true);
      g := g.(red := true);
      RotateRightAt(H(), cp.up, g);
      FocusLeft(H(), cp.up, g);
      FocusLeft(H(), InL(cp.up, g.id, g.key, g.red, g.r), p);
      ParentOf(H(), InL(cp.up, g.id, g.key, g.red, g.r), p);
      ParentOf(H(), InL(InL(cp.up, g.id, g.key, g.red, g.r), p.id, p.key, p.red, p.r), t);
      RotRight(nodes[nodes[node].parent].parent);
      g := RotR(g);
      FocusLeft(H(), cp.up, g);
      c := InL(cp.up, g.id, g.key, g.red, g.r);
      if c0.InL? { InsertOuterLeft(c0, t0, c); } else { InsertInnerLeft(c0, t0, c, t); }
    }

    /** Lines 81-88: the parent is a right child and the uncle is black. */
    method TurnRight(node0: Id, ghost c0: Ctx, ghost t0: Tree) returns (node: Id, ghost c: Ctx, ghost t: Tree)
      requires At(H(), c0, t0) && t0.Br? && t0.id == node0 && InsertInv(c0, t0) && TopRed(c0) && c0.up.InR? &&
               !IsRed(c0.up.l)
      modifies this`nodes, this`root
      ensures At(H(), c, t) && t.Br? && t.id == node && InsertInv(c, t) && !TopRed(c) && !c.Top?
      ensures Depth(c) < Depth(c0) && Inorder(Plug(c, t)) == Inorder(Plug(c0, t0)) && nodes.Keys == old(nodes.Keys)
    {
      node, c, t := node0, c0, t0;
      GrandParent(c);
      ParentOf(H(), c, t);
      FocusUp(H(), c, t);
      ghost var p := Fill(c, t);
      ghost var cp := c.up;
      if node == nodes[nodes[node].parent].left {
        node := nodes[node].parent;
        RotateRightAt(H(), cp, p);
        RotRight(node);
        p := RotR(p);
        t := p.r;
        FocusRight(H(), cp, p);
      } else {
        t := t0;
        FocusRight(H(), cp, p);
      }
      // p is the parent of node, a red right child of the grandparent
      ghost var ct := InR(cp, p.l, p.id, p.key, p.red);
      ParentOf(H(), ct, t);
      RecolorAt(H(), cp, p, false);
      SetColor(nodes[node].parent, false);
      p := p.(red := false);
      ParentOf(H(), cp, p);
      FocusUp(H(), cp, p);
      ghost var g := Fill(cp, p);
      RecolorAt(H(), cp.up, g, true);
      FocusRight(H(), cp, p);
      ParentOf(H(), InR(cp, p.l, p.id, p.key, p.red), t);
      SetColor(nodes[nodes[node].parent].parent, true);
      g := g.(red := true);
      RotateLeftAt(H(), cp.up, g);
      FocusRight(H(), cp.up, g);
      FocusRight(H(), InR(cp.up, g.l, g.id, g.key, g.red), p);
      ParentOf(H(), InR(cp.up, g.l, g.id, g.key, g.red), p);
      ParentOf(H(), InR(InR(cp.up, g.l, g.id, g.key, g.red), p.l, p.id, p.key, p.red), t);
      RotLeft(nodes[nodes[node].parent].parent);
      g := RotL(g);
      FocusRight(H(), cp.up, g);
      c := InR(cp.up, g.l, g.id, g.key, g.red);
      if c0.InR? { InsertOuterRight(c0, t0, c); } else { InsertInnerRight(c0, t0, c, t); }
    }

    lemma Placed(t: Tree, node: Id, key: Key) returns (b: Order, a: Order)
      ensures Without(Inorder(t), Inorder(InsertLeaf(lt, t, node, key)), (node, key), b, a)
      ensures Sorted(lt, Inorder(t)) && WeakOrder(lt, KeysOf(Inorder(t)) + {key}) ==>
        Sorted(lt, Inorder(InsertLeaf(lt, t, node, key))) && NoneLess(lt, key, b) && AllLess(lt, key, a)
    {
      b, a := InsertLeafAdds(lt, t, node, key);
      if Sorted(lt, Inorder(t)) && WeakOrder(lt, KeysOf(Inorder(t)) + {key}) {
        SortedWith(lt, Inorder(t), Inorder(InsertLeaf(lt, t, node, key)), (node, key), b, a);
      }
    }

    /** ngx_rbtree_insert, lines 24-94, with the descent of lines 103-118 or 128-153. */
    method Insert(node: Id) returns (ghost b: Order, ghost a: Order)
      requires Valid() && node in nodes && node != sentinel && node !in Ids(tree)
      modifies this
      ensures Valid() && Without(old(Inorder(tree)), Inorder(tree), (node, old(nodes[node].key)), b, a) &&
              nodes.Keys == old(nodes.Keys)
      ensures Sorted(lt, old(Inorder(tree))) && WeakOrder(lt, KeysOf(old(Inorder(tree))) + {old(nodes[node].key)}) ==>
        Sorted(lt, Inorder(tree)) && NoneLess(lt, old(nodes[node].key), b) && AllLess(lt, old(nodes[node].key), a)
      ensures multiset(Inorder(tree)) == multiset(old(Inorder(tree))) + multiset{(node, old(nodes[node].key))}
    {
      var key := nodes[node].key;
      b, a := Placed(tree, node, key);
      if root == sentinel {
        RootOf(H(), tree);
        nodes := nodes[node := Node(key, sentinel, sentinel, 0, false)];
        root := node;
        tree := Br(Leaf, node, key, false, Leaf);
        assert Rep(nodes, sentinel, 0, true, tree);
        assert At(H(), Top, tree);
        assert HasBH(tree, 1) && NoRedRed(tree);
      } else {
        ghost var c := Descend(node);
        LeafInv(c, node, key);
        InsertFixup(node, c, Br(Leaf, node, key, true, Leaf));
      }
      OneNode(old(Inorder(tree)), Inorder(tree), (node, key), b, a);
    }

    /** Lines 103-118 and 128-153 */
    method Descend(node: Id) returns (ghost c: Ctx)
      requires Valid() && node in nodes && node != sentinel && node !in Ids(tree) && root != sentinel
      modifies this`nodes
      ensures At(H(), c, Br(Leaf, node, old(nodes[node].key), true, Leaf)) && nodes.Keys == old(nodes.Keys)
      ensures RedBlack(Plug(c, Leaf)) && node !in CtxIds(c)
      ensures InsertLeaf(lt, old(tree), node, old(nodes[node].key)) == Plug(c,
                Br(Leaf, node, old(nodes[node].key), true, Leaf))
    {
      RootOf(H(), tree);
      var temp, key := root, nodes[node].key;
      c := Top;
      ghost var t := tree;
      while true
        invariant nodes == old(nodes)
        invariant At(H(), c, t) && t.Br? && t.id == temp && temp in nodes && nodes[temp].key == t.key &&
                  Plug(c, t) == tree
        invariant nodes[temp].left == RootId(sentinel, t.l) && nodes[temp].right == RootId(sentinel, t.r)
        invariant InsertLeaf(lt, tree, node, key) == Plug(c, InsertLeaf(lt, t, node, key))
        decreases t
      {
        var left := lt(key, nodes[temp].key);
        ghost var below := if left then t.l else t.r;
        if left { FocusLeft(H(), c, t); } else { FocusRight(H(), c, t); }
        c := if left then InL(c, t.id, t.key, t.red, t.r) else InR(c, t.l, t.id, t.key, t.red);
        var p := if left then nodes[temp].left else nodes[temp].right;
        if p == sentinel {
          LeafIfSentinel(H(), c, below);
          PlugIds(c, Leaf);
          Link(temp, left, node, key, c);
          return;
        }
        temp, t := p, below;
      }
    }

    /** Lines 114-118: *p = node and the fields of the new node. */
    method Link(temp: Id, left: bool, node: Id, key: Key, ghost c: Ctx)
      requires At(H(), c, Leaf) && !c.Top? && c.id == temp && (left <==> c.InL?) && temp in nodes
      requires node in nodes && node != sentinel && node !in CtxIds(c)
      modifies this`nodes
      ensures At(H(), c, Br(Leaf, node, key, true, Leaf)) && nodes.Keys == old(nodes.Keys)
    {
      ghost var h := H();
      nodes := nodes[temp := if left then nodes[temp].(left := node) else nodes[temp].(right := node)];
      nodes := nodes[node := Node(key, sentinel, sentinel, temp, true)];
      AttachAt(h, H(), c, node, key);
    }

    /** Lines 49-93: the loop that restores the red-black properties above the new node. */
    method InsertFixup(node0: Id, ghost c0: Ctx, ghost t0: Tree)
      requires At(H(), c0, t0) && t0.Br? && t0.id == node0 && InsertInv(c0, t0)
      modifies this
      ensures Valid() && Inorder(tree) == Inorder(Plug(c0, t0)) && nodes.Keys == old(nodes.Keys)
    {
      var node := node0;
      ghost var c, t := c0, t0;
      ParentOf(H(), c, t);
      while node != root && nodes[nodes[node].parent].red
        invariant At(H(), c, t) && t.Br? && t.id == node && InsertInv(c, t)
        invariant Inorder(Plug(c, t)) == Inorder(Plug(c0, t0)) && nodes.Keys == old(nodes.Keys)
        invariant (node == root <==> c.Top?) && node in nodes
        invariant !c.Top? ==> nodes[node].parent == c.id && c.id in nodes && nodes[c.id].red == c.red
        decreases Depth(c)
      {
        node, c, t := InsertStep(node, c, t);
        ParentOf(H(), c, t);
      }
      InsertDone(c, t);
      FinishInsert(c, t);
    }

    /** One round of the loop. */
    method InsertStep(node0: Id, ghost c0: Ctx, ghost t0: Tree) returns (node: Id, ghost c: Ctx, ghost t: Tree)
      requires At(H(), c0, t0) && t0.Br? && t0.id == node0 && InsertInv(c0, t0) && TopRed(c0)
      modifies this`nodes, this`root
      ensures At(H(), c, t) && t.Br? && t.id == node && InsertInv(c, t)
      ensures Depth(c) < Depth(c0) && Inorder(Plug(c, t)) == Inorder(Plug(c0, t0)) && nodes.Keys == old(nodes.Keys)
    {
      GrandParent(c0);
      ParentOf(H(), c0, t0);
      FocusUp(H(), c0, t0);
      ParentOf(H(), c0.up, Fill(c0, t0));
      FocusUp(H(), c0.up, Fill(c0, t0));
      ghost var g := Fill(c0.up, Fill(c0, t0));
      var parent := nodes[node0].parent;
      var grand := nodes[parent].parent;
      if parent == nodes[grand].left {
        var temp := nodes[grand].right;
        FocusRight(H(), c0.up.up, g);
        ColourOf(H(), InR(c0.up.up, g.l, g.id, g.key, g.red), g.r);
        if nodes[temp].red {
          c := c0.up.up;
          node, t := Recolor(node0, temp, c0, t0);
        } else {
          node, c, t := TurnLeft(node0, c0, t0);
        }
      } else {
        var temp := nodes[grand].left;
        FocusLeft(H(), c0.up.up, g);
        ColourOf(H(), InL(c0.up.up, g.id, g.key, g.red, g.r), g.l);
        if nodes[temp].red {
          c := c0.up.up;
          node, t := Recolor(node0, temp, c0, t0);
        } else {
          node, c, t := TurnRight(node0, c0, t0);
        }
      }
    }

    /** Line 93: the root turns black. */
    method FinishInsert(ghost c: Ctx, ghost t: Tree)
      requires At(H(), c, t) && t.Br?
      requires !c.Top? ==> RedBlack(Plug(c, t))
      requires c.Top? ==> RedBlack(Blacken(t)) && Inorder(Blacken(t)) == Inorder(t)
      modifies this
      ensures Valid() && Inorder(tree) == Inorder(Plug(c, t)) && nodes.Keys == old(nodes.Keys)
    {
      FocusTop(H(), c, t);
      tree := Plug(c, t);
      BlackenAt(H(), Top, tree);
      SetColor(root, false);
      tree := Blacken(tree);
      if !c.Top? { BlackIsBlack(Plug(c, t)); }
    }

    // ----- deletion -----

    /** Lines 271-273 and 300-302: the black sibling w of the short subtree turns red. */
    method FadeSibling(w: Id, ghost c: Ctx, ghost t: Tree) returns (ghost t': Tree)
      requires FixAt(H(), c, t) && DeleteInv(c, t) && !c.Top? && !IsRed(t)
      requires Sibling(c).Br? && w == Sibling(c).id && !Sibling(c).red && !IsRed(Sibling(c).l) && !IsRed(Sibling(c).r)
      modifies this`nodes
      ensures FixAt(H(), c.up, t') && t'.Br? && t'.id == c.id && t'.red == c.red && DeleteInv(c.up, t')
      ensures Inorder(Plug(c.up, t')) == Inorder(Plug(c, t)) && nodes.Keys == old(nodes.Keys)
    {
      FocusUp(H(), c, t);
      t' := Fill(c, t);
      ghost var u := Sibling(c);
      ghost var cu := if c.InL? then InR(c.up, t'.l, t'.id, t'.key, t'.red) else InL(c.up, t'.id, t'.key, t'.red, t'.r);
      if c.InL? { FocusRight(H(), c.up, t'); } else { FocusLeft(H(), c.up, t'); }
      RecolorAt(H(), cu, u, true);
      SetColor(w, true);
      FocusUp(H(), cu, u.(red := true));
      t' := Fill(cu, u.(red := true));
      FaultMovesUp(c, t, t');
    }

    /** Lines 264-269: the red sibling w goes above the parent. */
    method RaiseLeft(temp: Id, ghost c: Ctx, ghost t: Tree) returns (ghost c': Ctx)
      requires FixAt(H(), c, t) && temp == RootId(sentinel, t) && DeleteInv(c, t) && c.InL? && IsRed(c.r) && !IsRed(t)
      modifies this`nodes, this`root
      ensures FixAt(H(), c', t) && DeleteInv(c', t) && c'.InL? && !IsRed(c'.r) && c'.red &&
              nodes.Keys == old(nodes.Keys)
      ensures Inorder(Plug(c', t)) == Inorder(Plug(c, t)) && Depth(c') == Depth(c) + 1
    {
      SiblingIsNode(c, t);
      ParentFact(H(), c, t);
      FocusUp(H(), c, t);
      ghost var p := Fill(c, t);
      FocusRight(H(), c.up, p);
      var parent := nodes[temp].parent;
      var w := nodes[parent].right;
      RecolorAt(H(), InR(c.up, p.l, p.id, p.key, p.red), p.r, false);
      SetColor(w, false);
      FocusUp(H(), InR(c.up, p.l, p.id, p.key, p.red), p.r.(red := false));
      p := p.(r := p.r.(red := false));
      RecolorAt(H(), c.up, p, true);
      SetColor(parent, true);
      p := p.(red := true);
      RotateLeftAt(H(), c.up, p);
      RotLeft(parent);
      p := RotL(p);
      FocusLeft(H(), c.up, p);
      ghost var cw := InL(c.up, p.id, p.key, p.red, p.r);
      FocusLeft(H(), cw, p.l);
      c' := InL(cw, p.l.id, p.l.key, p.l.red, p.l.r);
      RedSiblingLeft(c, t, c');
    }

    /** Lines 276-287: a nephew of the short subtree is red; the repair ends at the root. */
    method NephewLeft(temp: Id, ghost c0: Ctx, ghost t: Tree) returns (ghost t': Tree)
      requires FixAt(H(), c0, t) && temp == RootId(sentinel, t) && DeleteInv(c0, t) && c0.InL? && !IsRed(t)
      requires c0.r.Br? && !c0.r.red && (IsRed(c0.r.l) || IsRed(c0.r.r))
      modifies this`nodes, this`root
      ensures At(H(), Top, t') && RedBlack(t') && Inorder(t') == Inorder(Plug(c0, t)) && nodes.Keys == old(nodes.Keys)
    {
      ghost var c := c0;
      SiblingColour(H(), c, t);
      NephewColours(H(), c, t);
      var parent := nodes[temp].parent;
      var w := nodes[parent].right;
      if !nodes[nodes[w].right].red {
        c := TwistLeft(temp, parent, w, c, t);
        SiblingColour(H(), c, t);
        w := nodes[parent].right;
      }
      t' := SettleLeft(parent, w, c, t);
    }

    /** Lines 283-287: the outer nephew is red. */
    method SettleLeft(parent: Id, w: Id, ghost c: Ctx, ghost t: Tree) returns (ghost t': Tree)
      requires FixAt(H(), c, t) && DeleteInv(c, t) && c.InL? && !IsRed(t)
      requires c.r.Br? && !c.r.red && IsRed(c.r.r) && parent == c.id && w == c.r.id
      modifies this`nodes, this`root
      ensures At(H(), Top, t') && RedBlack(t') && Inorder(t') == Inorder(Plug(c, t)) && nodes.Keys == old(nodes.Keys)
    {
      ParentFact(H(), c, t);
      FocusUp(H(), c, t);
      ghost var p := Fill(c, t);
      FocusRight(H(), c.up, p);
      ghost var cw := InR(c.up, p.l, p.id, p.key, p.red);
      RecolorAt(H(), cw, p.r, p.red);
      SetColor(w, nodes[parent].red);
      FocusUp(H(), cw, p.r.(red := p.red));
      p := p.(r := p.r.(red := p.red));
      RecolorAt(H(), c.up, p, false);
      SetColor(parent, false);
      p := p.(red := false);
      FocusRight(H(), c.up, p);
      cw := InR(c.up, p.l, p.id, p.key, p.red);
      FocusRight(H(), cw, p.r);
      ghost var cn := InR(cw, p.r.l, p.r.id, p.r.key, p.r.red);
      RecolorAt(H(), cn, p.r.r, false);
      SetColor(nodes[w].right, false);
      FocusUp(H(), cn, p.r.r.(red := false));
      FocusUp(H(), cw, p.r.(r := p.r.r.(red := false)));
      p := p.(r := p.r.(r := p.r.r.(red := false)));
      RotateLeftAt(H(), c.up, p);
      RotLeft(parent);
      OuterNephewLeft(c, t, RotL(p));
      FocusTop(H(), c.up, RotL(p));
      t' := Plug(c.up, RotL(p));
    }

    /** Lines 277-280: the red inner nephew goes above the sibling w. */
    method TwistLeft(temp: Id, parent: Id, w: Id, ghost c: Ctx, ghost t: Tree) returns (ghost c': Ctx)
      requires FixAt(H(), c, t) && temp == RootId(sentinel, t) && DeleteInv(c, t) && c.InL? && !IsRed(t)
      requires c.r.Br? && !c.r.red && IsRed(c.r.l) && !IsRed(c.r.r) && parent == c.id && w == c.r.id
      modifies this`nodes, this`root
      ensures FixAt(H(), c', t) && DeleteInv(c', t) && c'.InL? && c'.up == c.up && c'.id == c.id && c'.red == c.red &&
              c'.key == c.key
      ensures c'.r.Br? && !c'.r.red && IsRed(c'.r.r) && Inorder(Plug(c', t)) == Inorder(Plug(c, t)) &&
              nodes.Keys == old(nodes.Keys)
    {
      FocusUp(H(), c, t);
      ghost var p := Fill(c, t);
      FocusRight(H(), c.up, p);
      ghost var cw := InR(c.up, p.l, p.id, p.key, p.red);
      ghost var q := p.r;
      FocusLeft(H(), cw, q);
      ghost var cn := InL(cw, q.id, q.key, q.red, q.r);
      RecolorAt(H(), cn, q.l, false);
      SetColor(nodes[w].left, false);
      FocusUp(H(), cn, q.l.(red := false));
      q := q.(l := q.l.(red := false));
      RecolorAt(H(), cw, q, true);
      SetColor(w, true);
      q := q.(red := true);
      RotateRightAt(H(), cw, q);
      RotRight(w);
      q := RotR(q);
      FocusUp(H(), cw, q);
      p := p.(r := q);
      FocusLeft(H(), c.up, p);
      c' := InL(c.up, p.id, p.key, p.red, p.r);
      InnerNephewLeft(c, t, c');
    }

    /** Lines 262-288: one round with the short subtree on the left. */
    method DeleteStepLeft(temp0: Id, ghost c0: Ctx, ghost t0: Tree) returns (temp: Id, ghost c: Ctx, ghost t: Tree)
      requires FixAt(H(), c0, t0) && temp0 == RootId(sentinel, t0) && DeleteInv(c0, t0) && c0.InL? && !IsRed(t0)
      modifies this`nodes, this`root
      ensures FixAt(H(), c, t) && temp == RootId(sentinel, t) && DeleteInv(c, t) && nodes.Keys == old(nodes.Keys)
      ensures Inorder(Plug(c, t)) == Inorder(Plug(c0, t0)) && Distance(c, t) < Distance(c0, t0)
    {
      temp, c, t := temp0, c0, t0;
      SiblingColour(H(), c, t);
      var w := nodes[nodes[temp].parent].right;
      if nodes[w].red {
        c := RaiseLeft(temp, c, t);
        SiblingColour(H(), c, t);
        w := nodes[nodes[temp].parent].right;
      }
      SiblingIsNode(c, t);
      NephewColours(H(), c, t);
      if !nodes[nodes[w].left].red && !nodes[nodes[w].right].red {
        ParentFact(H(), c, t);
        temp := nodes[temp].parent;
        t := FadeSibling(w, c, t);
        c := c.up;
      } else {
        t := NephewLeft(temp, c, t);
        c := Top;
        temp := root;
        WholeTree(t);
        RootOf(H(), t);
      }
    }

    /** Lines 293-298: the red sibling w goes above the parent. */
    method RaiseRight(temp: Id, ghost c: Ctx, ghost t: Tree) returns (ghost c': Ctx)
      requires FixAt(H(), c, t) && temp == RootId(sentinel, t) && DeleteInv(c, t) && c.InR? && IsRed(c.l) && !IsRed(t)
      modifies this`nodes, this`root
      ensures FixAt(H(), c', t) && DeleteInv(c', t) && c'.InR? && !IsRed(c'.l) && c'.red &&
              nodes.Keys == old(nodes.Keys)
      ensures Inorder(Plug(c', t)) == Inorder(Plug(c, t)) && Depth(c') == Depth(c) + 1
    {
      SiblingIsNode(c, t);
      ParentFact(H(), c, t);
      FocusUp(H(), c, t);
      ghost var p := Fill(c, t);
      FocusLeft(H(), c.up, p);
      var parent := nodes[temp].parent;
      var w := nodes[parent].left;
      RecolorAt(H(), InL(c.up, p.id, p.key, p.red, p.r), p.l, false);
      SetColor(w, false);
      FocusUp(H(), InL(c.up, p.id, p.key, p.red, p.r), p.l.(red := false));
      p := p.(l := p.l.(red := false));
      RecolorAt(H(), c.up, p, true);
      SetColor(parent, true);
      p := p.(red := true);
      RotateRightAt(H(), c.up, p);
      RotRight(parent);
      p := RotR(p);
      FocusRight(H(), c.up, p);
      ghost var cw := InR(c.up, p.l, p.id, p.key, p.red);
      FocusRight(H(), cw, p.r);
      c' := InR(cw, p.r.l, p.r.id, p.r.key, p.r.red);
      RedSiblingRight(c, t, c');
    }

    /** Lines 305-316: a nephew of the short subtree is red; the repair ends at the root. */
    method NephewRight(temp: Id, ghost c0: Ctx, ghost t: Tree) returns (ghost t': Tree)
      requires FixAt(H(), c0, t) && temp == RootId(sentinel, t) && DeleteInv(c0, t) && c0.InR? && !IsRed(t)
      requires c0.l.Br? && !c0.l.red && (IsRed(c0.l.l) || IsRed(c0.l.r))
      modifies this`nodes, this`root
      ensures At(H(), Top, t') && RedBlack(t') && Inorder(t') == Inorder(Plug(c0, t)) && nodes.Keys == old(nodes.Keys)
    {
      ghost var c := c0;
      SiblingColour(H(), c, t);
      NephewColours(H(), c, t);
      var parent := nodes[temp].parent;
      var w := nodes[parent].left;
      if !nodes[nodes[w].left].red {
        c := TwistRight(temp, parent, w, c, t);
        SiblingColour(H(), c, t);
        w := nodes[parent].left;
      }
      t' := SettleRight(parent, w, c, t);
    }

    /** Lines 312-316: the outer nephew is red. */
    method SettleRight(parent: Id, w: Id, ghost c: Ctx, ghost t: Tree) returns (ghost t': Tree)
      requires FixAt(H(), c, t) && DeleteInv(c, t) && c.InR? && !IsRed(t)
      requires c.l.Br? && !c.l.red && IsRed(c.l.l) && parent == c.id && w == c.l.id
      modifies this`nodes, this`root
      ensures At(H(), Top, t') && RedBlack(t') && Inorder(t') == Inorder(Plug(c, t)) && nodes.Keys == old(nodes.Keys)
    {
      ParentFact(H(), c, t);
      FocusUp(H(), c, t);
      ghost var p := Fill(c, t);
      FocusLeft(H(), c.up, p);
      ghost var cw := InL(c.up, p.id, p.key, p.red, p.r);
      RecolorAt(H(), cw, p.l, p.red);
      SetColor(w, nodes[parent].red);
      FocusUp(H(), cw, p.l.(red := p.red));
      p := p.(l := p.l.(red := p.red));
      RecolorAt(H(), c.up, p, false);
      SetColor(parent, false);
      p := p.(red := false);
      FocusLeft(H(), c.up, p);
      cw := InL(c.up, p.id, p.key, p.red, p.r);
      FocusLeft(H(), cw, p.l);
      ghost var cn := InL(cw, p.l.id, p.l.key, p.l.red, p.l.r);
      RecolorAt(H(), cn, p.l.l, false);
      SetColor(nodes[w].left, false);
      FocusUp(H(), cn, p.l.l.(red := false));
      FocusUp(H(), cw, p.l.(l := p.l.l.(red := false)));
      p := p.(l := p.l.(l := p.l.l.(red := false)));
      RotateRightAt(H(), c.up, p);
      RotRight(parent);
      OuterNephewRight(c, t, RotR(p));
      FocusTop(H(), c.up, RotR(p));
      t' := Plug(c.up, RotR(p));
    }

    /** Lines 306-309: the red inner nephew goes above the sibling w. */
    method TwistRight(temp: Id, parent: Id, w: Id, ghost c: Ctx, ghost t: Tree) returns (ghost c': Ctx)
      requires FixAt(H(), c, t) && temp == RootId(sentinel, t) && DeleteInv(c, t) && c.InR? && !IsRed(t)
      requires c.l.Br? && !c.l.red && IsRed(c.l.r) && !IsRed(c.l.l) && parent == c.id && w == c.l.id
      modifies this`nodes, this`root
      ensures FixAt(H(), c', t) && DeleteInv(c', t) && c'.InR? && c'.up == c.up && c'.id == c.id && c'.red == c.red &&
              c'.key == c.key
      ensures c'.l.Br? && !c'.l.red && IsRed(c'.l.l) && Inorder(Plug(c', t)) == Inorder(Plug(c, t)) &&
              nodes.Keys == old(nodes.Keys)
    {
      FocusUp(H(), c, t);
      ghost var p := Fill(c, t);
      FocusLeft(H(), c.up, p);
      ghost var cw := InL(c.up, p.id, p.key, p.red, p.r);
      ghost var q := p.l;
      FocusRight(H(), cw, q);
      ghost var cn := InR(cw, q.l, q.id, q.key, q.red);
      RecolorAt(H(), cn, q.r, false);
      SetColor(nodes[w].right, false);
      FocusUp(H(), cn, q.r.(red := false));
      q := q.(r := q.r.(red := false));
      RecolorAt(H(), cw, q, true);
      SetColor(w, true);
      q := q.(red := true);
      RotateLeftAt(H(), cw, q);
      RotLeft(w);
      q := RotL(q);
      FocusUp(H(), cw, q);
      p := p.(l := q);
      FocusRight(H(), c.up, p);
      c' := InR(c.up, p.l, p.id, p.key, p.red);
      InnerNephewRight(c, t, c');
    }

    /** Lines 291-317: one round with the short subtree on the right. */
    method DeleteStepRight(temp0: Id, ghost c0: Ctx, ghost t0: Tree) returns (temp: Id, ghost c: Ctx, ghost t: Tree)
      requires FixAt(H(), c0, t0) && temp0 == RootId(sentinel, t0) && DeleteInv(c0, t0) && c0.InR? && !IsRed(t0)
      modifies this`nodes, this`root
      ensures FixAt(H(), c, t) && temp == RootId(sentinel, t) && DeleteInv(c, t) && nodes.Keys == old(nodes.Keys)
      ensures Inorder(Plug(c, t)) == Inorder(Plug(c0, t0)) && Distance(c, t) < Distance(c0, t0)
    {
      temp, c, t := temp0, c0, t0;
      SiblingColour(H(), c, t);
      var w := nodes[nodes[temp].parent].left;
      if nodes[w].red {
        c := RaiseRight(temp, c, t);
        SiblingColour(H(), c, t);
        w := nodes[nodes[temp].parent].left;
      }
      SiblingIsNode(c, t);
      NephewColours(H(), c, t);
      if !nodes[nodes[w].right].red && !nodes[nodes[w].left].red {
        ParentFact(H(), c, t);
        temp := nodes[temp].parent;
        t := FadeSibling(w, c, t);
        c := c.up;
      } else {
        t := NephewRight(temp, c, t);
        c := Top;
        temp := root;
        WholeTree(t);
        RootOf(H(), t);
      }
    }

    /** Lines 259-321: the loop that repairs the subtree one black node short. */
    method DeleteFixup(temp0: Id, ghost c0: Ctx, ghost t0: Tree)
      requires FixAt(H(), c0, t0) && temp0 == RootId(sentinel, t0) && DeleteInv(c0, t0)
      modifies this
      ensures Valid() && Inorder(tree) == Inorder(Plug(c0, t0)) && nodes.Keys == old(nodes.Keys)
    {
      var temp := temp0;
      ghost var c, t := c0, t0;
      TempFact(H(), c, t);
      while temp != root && !nodes[temp].red
        invariant FixAt(H(), c, t) && temp == RootId(sentinel, t) && DeleteInv(c, t) && temp in nodes
        invariant Inorder(Plug(c, t)) == Inorder(Plug(c0, t0)) && nodes.Keys == old(nodes.Keys)
        invariant (temp == root <==> c.Top?) && nodes[temp].red == IsRed(t)
        decreases Distance(c, t)
      {
        ParentFact(H(), c, t);
        SiblingIsNode(c, t);
        if temp == nodes[nodes[temp].parent].left {
          temp, c, t := DeleteStepLeft(temp, c, t);
        } else {
          temp, c, t := DeleteStepRight(temp, c, t);
        }
        TempFact(H(), c, t);
      }
      DeleteDone(c, t);
      BlackenAt(H(), c, t);
      SetColor(temp, false);
      FocusTop(H(), c, Blacken(t));
      tree := Plug(c, Blacken(t));
    }

    /** ngx_rbtree_min of src/core/ngx_rbtree.h, lines 73-81 */
    method Min(x: Id, ghost c: Ctx, ghost t: Tree) returns (y: Id, ghost q: Ctx, ghost m: Tree)
      requires At(H(), c, t) && t.Br? && x == t.id
      ensures At(H(), Compose(q, c), m) && m.Br? && m.id == y && m.l.Leaf? && AllLeft(q) && Plug(q, m) == t
    {
      y, q, m := x, Top, t;
      NodeFields(H(), c, t);
      while nodes[y].left != sentinel
        invariant At(H(), Compose(q, c), m) && m.Br? && m.id == y && AllLeft(q) && Plug(q, m) == t
        invariant y in nodes && nodes[y].left == RootId(sentinel, m.l) && (nodes[y].left == sentinel <==> m.l.Leaf?)
        decreases m
      {
        FocusLeft(H(), Compose(q, c), m);
        y := nodes[y].left;
        q, m := InL(q, m.id, m.key, m.red, m.r), m.l;
        NodeFields(H(), Compose(q, c), m);
      }
    }

    /** The leftmost node of the whole tree: the callers in src/event/ngx_event_timer.c pass the root. */
    method First() returns (y: Id)
      requires Valid() && root != sentinel
      ensures Inorder(tree) != [] && y in nodes && Inorder(tree)[0] == (y, nodes[y].key)
    {
      RootOf(H(), tree);
      ghost var q, m;
      y, q, m := Min(root, Top, tree);
      NodeFields(H(), Compose(q, Top), m);
      LeftmostFirst(q, m);
    }

    lemma RootFact()
      requires Valid()
      ensures root == sentinel <==> tree.Leaf?
    {
    }

    /** Memory for a node that is not yet in the tree. */
    method NewNode(node: Id, n: Node)
      requires Valid() && node !in nodes
      modifies this`nodes
      ensures Valid() && nodes == old(nodes)[node := n]
    {
      SentinelNotIn(nodes, sentinel, 0, true, tree);
      ForgetAt(H(), Top, tree, node, n);
      nodes := nodes[node := n];
    }

    /** A node outside the tree gets its key before it is inserted. */
    method SetKey(node: Id, key: Key)
      requires Valid() && node in nodes && node != sentinel && node !in Ids(tree)
      modifies this`nodes
      ensures Valid() && nodes == old(nodes)[node := old(nodes[node]).(key := key)]
    {
      ForgetAt(H(), Top, tree, node, nodes[node].(key := key));
      nodes := nodes[node := nodes[node].(key := key)];
    }

    /** The key is set and the node inserted, as the callers do. */
    method InsertSorted(node: Id, key: Key) returns (ghost b: Order, ghost a: Order)
      requires Valid() && node in nodes && node != sentinel && node !in Ids(tree)
      requires Sorted(lt, Inorder(tree)) && WeakOrder(lt, KeysOf(Inorder(tree)) + {key})
      modifies this
      ensures Valid() && Sorted(lt, Inorder(tree)) && nodes.Keys == old(nodes.Keys)
      ensures Without(old(Inorder(tree)), Inorder(tree), (node, key), b, a)
    {
      SetKey(node, key);
      b, a := Insert(node);
    }

    /** Each node of the tree occurs once in the order, with its own key. */
    lemma NodesOnce()
      requires Valid()
      ensures DistinctIds(Inorder(tree)) && IdsOf(Inorder(tree)) == Ids(tree) && sentinel !in Ids(tree)
      ensures forall e :: e in Inorder(tree) ==> e.0 in nodes && nodes[e.0].key == e.1
    {
      InorderIds(tree);
      RepOnce(nodes, sentinel, 0, true, tree);
      SentinelNotIn(nodes, sentinel, 0, true, tree);
    }

    /** Lines 187-197: the root, with at most one child, goes. */
    method RemoveRoot(node: Id, temp: Id, ghost x: Tree)
      requires Valid() && tree.Br? && tree.id == node && temp == RootId(sentinel, x)
      requires OnlyChild(tree, x)
      modifies this
      ensures Valid() && Inorder(tree) == Inorder(x) && nodes.Keys == old(nodes.Keys)
    {
      OneChildGone(Top, tree, x);
      RootChild(H(), tree, x);
      root := temp;
      BlackenAt(H(), Top, x);
      SetColor(temp, false);
      ForgetAt(H(), Top, Blacken(x), node, Cleared(nodes[node]));
      nodes := nodes[node := Cleared(nodes[node])];
      tree := Blacken(x);
    }

    /** Lines 201-213 and 219: subst, with at most one child, is cut out and temp takes its place. */
    method Splice(subst: Id, temp: Id, parent: Id, ghost c: Ctx, ghost t: Tree, ghost x: Tree)
      requires At(H(), c, t) && !c.Top? && t.Br? && t.id == subst && temp == RootId(sentinel, x) && OnlyChild(t, x)
      modifies this`nodes
      ensures Spliced(old(H()), H(), c, x, parent) && nodes[subst] == old(nodes[subst])
    {
      ParentOf(H(), c, t);
      SpliceReady(H(), c, t, x);
      if subst == nodes[nodes[subst].parent].left {
        nodes := nodes[nodes[subst].parent := nodes[nodes[subst].parent].(left := temp)];
      } else {
        nodes := nodes[nodes[subst].parent := nodes[nodes[subst].parent].(right := temp)];
      }
      nodes := nodes[temp := nodes[temp].(parent := parent)];
    }

    /** Lines 222-244: subst takes over the links and the colour of node. */
    method Substitute(node: Id, subst: Id, ghost c: Ctx, ghost t: Tree)
      requires Neighbours(H(), c, t) && t.id == node && subst in nodes && subst != sentinel && subst != node &&
               (c.Top? || subst != c.id)
      requires (t.l.Br? ==> subst != t.l.id) && (t.r.Br? ==> subst != t.r.id)
      modifies this`nodes, this`root
      ensures Replaced(old(H()), H(), c, t, subst)
    {
      if !c.Top? { assert c.id in CtxIds(c); }
      nodes := nodes[subst := nodes[node].(key := nodes[subst].key)];
      LinkFromAbove(node, subst);
      if nodes[subst].left != sentinel {
        nodes := nodes[nodes[subst].left := nodes[nodes[subst].left].(parent := subst)];
      }
      if nodes[subst].right != sentinel {
        nodes := nodes[nodes[subst].right := nodes[nodes[subst].right].(parent := subst)];
      }
    }

    /** ngx_rbtree_delete, lines 157-321 */
    method Delete(node: Id) returns (ghost b: Order, ghost a: Order)
      requires Valid() && node in Ids(tree) && node in nodes
      modifies this
      ensures Valid() && Without(Inorder(tree), old(Inorder(tree)), (node, old(nodes[node].key)), b, a)
      ensures nodes.Keys == old(nodes.Keys) && (Sorted(lt, old(Inorder(tree))) ==> Sorted(lt, Inorder(tree)))
      ensures multiset(old(Inorder(tree))) == multiset(Inorder(tree)) + multiset{(node, old(nodes[node].key))}
    {
      ghost var c, t := FindNode(tree, node);
      FocusDown(H(), c, Top, t);
      ComposeTop(c);
      NodeFields(H(), c, t);
      if nodes[node].left == sentinel {
        b, a := RemoveThin(node, nodes[node].right, c, t, t.r);
      } else if nodes[node].right == sentinel {
        b, a := RemoveThin(node, nodes[node].left, c, t, t.l);
      } else {
        b, a := RemoveThick(node, c, t);
      }
      OneNode(Inorder(tree), old(Inorder(tree)), (node, t.key), b, a);
      if Sorted(lt, old(Inorder(tree))) { SortedWithout(lt, Inorder(tree), old(Inorder(tree)), (node, t.key), b, a); }
    }

    /** node has at most one child. */
    method RemoveThin(node: Id, temp: Id, ghost c: Ctx, ghost t: Tree, ghost x: Tree)
        returns (ghost b: Order, ghost a: Order)
      requires Valid() && At(H(), c, t) && Plug(c, t) == tree && OnlyChild(t, x) && t.id == node &&
               temp == RootId(sentinel, x)
      modifies this
      ensures Valid() && Without(Inorder(tree), old(Inorder(tree)), (node, t.key), b, a)
      ensures nodes.Keys == old(nodes.Keys)
    {
      OneChildInorder(c, t, x);
      b, a := Before(c) + Inorder(t.l), Inorder(t.r) + After(c);
      ParentOf(H(), c, t);
      if node == root {
        RemoveRoot(node, temp, x);
        return;
      }
      OneChildGone(c, t, x);
      SpliceReady(H(), c, t, x);
      NodeFields(H(), c, t);
      var red := nodes[node].red;
      ghost var h := H();
      Splice(node, temp, nodes[node].parent, c, t, x);
      SplicedAt(h, H(), c, t, x);
      Finish(node, temp, red, c, x);
    }

    /** node has two children: its successor is spliced out and takes its place. */
    method RemoveThick(node: Id, ghost c: Ctx, ghost t: Tree) returns (ghost b: Order, ghost a: Order)
      requires Valid() && At(H(), c, t) && Plug(c, t) == tree && t.Br? && t.l.Br? && t.r.Br? && t.id == node
      modifies this
      ensures Valid() && Without(Inorder(tree), old(Inorder(tree)), (node, t.key), b, a)
      ensures nodes.Keys == old(nodes.Keys)
    {
      FocusRight(H(), c, t);
      NodeFields(H(), c, t);
      ghost var base := InR(c, t.l, t.id, t.key, t.red);
      var subst;
      ghost var q, m;
      subst, q, m := Min(nodes[node].right, base, t.r);
      TwoChildrenGone(c, t, q, m, Compose(q, InR(c, t.l, m.id, m.key, t.red)));
      b, a := SuccessorMoves(c, t, q, m);
      NodeFields(H(), Compose(q, base), m);
      var left, right, red := nodes[subst].left, nodes[subst].right, nodes[subst].red;
      var temp := if left != sentinel then left else right;
      MoveUp(node, subst, temp, c, t, q, m);
      SuccessorIds(old(H()), c, t, q, m);
      ComposeIds(q, InR(c, t.l, m.id, m.key, t.red));
      Finish(node, temp, red, Compose(q, InR(c, t.l, m.id, m.key, t.red)), m.r);
    }

    /** Lines 201-245 when subst is not node. */
    method MoveUp(node: Id, subst: Id, temp: Id, ghost c: Ctx, ghost t: Tree, ghost q: Ctx, ghost m: Tree)
      requires Successor(H(), c, t, q, m) && t.id == node && m.id == subst && temp == RootId(sentinel, m.r)
      modifies this`nodes, this`root
      ensures FixAt(H(), Compose(q, InR(c, t.l, m.id, m.key, t.red)), m.r) && nodes.Keys == old(nodes.Keys)
    {
      ghost var h, base := H(), InR(c, t.l, t.id, t.key, t.red);
      SuccessorIds(h, c, t, q, m);
      ComposeHead(q, base);
      ParentOf(h, Compose(q, base), m);
      NodeFields(h, Compose(q, base), m);
      var parent := if nodes[subst].parent == node then subst else nodes[subst].parent;
      Splice(subst, temp, parent, Compose(q, base), m, m.r);
      SplicedSuccessor(h, H(), c, t, q, m);
      h := H();
      LooseFacts(h, c, t.(r := Plug(q, m.r)));
      SubstApart(c, t.(r := Plug(q, m.r)), subst);
      Substitute(node, subst, c, t.(r := Plug(q, m.r)));
      ReplacedSuccessor(h, H(), c, t, q, m);
    }

    /** Lines 247-321: the node is cleared; unless a red node went, the repair loop follows. */
    method Finish(node: Id, temp: Id, red: bool, ghost c: Ctx, ghost x: Tree)
      requires FixAt(H(), c, x) && temp == RootId(sentinel, x) && node in nodes && node != sentinel &&
               node !in Ids(x) && node !in CtxIds(c)
      requires if red then RedBlack(Plug(c, x)) else DeleteInv(c, x)
      modifies this
      ensures Valid() && Inorder(tree) == Inorder(Plug(c, x)) && nodes.Keys == old(nodes.Keys)
    {
      ForgetAt(H(), c, x, node, Cleared(nodes[node]));
      nodes := nodes[node := Cleared(nodes[node])];
      if red {
        FocusTop(H(), c, x);
        tree := Plug(c, x);
        return;
      }
      DeleteFixup(temp, c, x);
    }
  }

  /** Rounds left in the repair loop. */
  function Distance(c: Ctx, t: Tree): nat { if IsRed(t) then 0 else Depth(c) + 1 }

  lemma ParentFact(h: Heap, c: Ctx, t: Tree)
    requires FixAt(h, c, t) && !c.Top?
    ensures RootId(h.s, t) in h.m && h.m[RootId(h.s, t)].parent == c.id && c.id in h.m
    ensures h.m[c.id].red == c.red
    ensures c.InL? ==> h.m[c.id].right == RootId(h.s, c.r)
    ensures c.InR? ==> h.m[c.id].left == RootId(h.s, c.l)
    ensures h.m[c.id].left == RootId(h.s, t) <==> c.InL? || (t.Leaf? && c.l.Leaf?)
  {
    if t.Br? { ParentOf(h, c, t); }
    RootInCtx(h.m, h.s, h.root, RootId(h.s, t), c);
    if c.InR? && c.l.Br? { assert c.l.id in CtxIds(c); }
  }

  lemma {:induction false} LeftmostFirst(q: Ctx, m: Tree)
    requires AllLeft(q) && m.Br? && m.l.Leaf?
    ensures Inorder(Plug(q, m)) != [] && Inorder(Plug(q, m))[0] == (m.id, m.key)
  {
    PlugInorder(q, m);
    LeftPathBefore(q, Top);
    ComposeTop(q);
    OnlyRight(m);
  }

  lemma {:induction false} RepOnce(m: Store, s: Id, par: Id, loose: bool, t: Tree)
    requires Rep(m, s, par, loose, t)
    ensures DistinctIds(Inorder(t)) && forall e :: e in Inorder(t) ==> e.0 in m && m[e.0].key == e.1
    decreases t
  {
    if t.Br? {
      RepOnce(m, s, t.id, false, t.l);
      RepOnce(m, s, t.id, false, t.r);
      InorderIds(t.l);
      InorderIds(t.r);
      DistinctJoin(Inorder(t.l), (t.id, t.key), Inorder(t.r));
    }
  }

  lemma SubstApart(c: Ctx, t: Tree, subst: Id)
    requires t.Br? && subst !in Ids(t) && subst !in CtxIds(c)
    ensures subst != t.id && (c.Top? || subst != c.id) && (t.l.Br? ==> subst != t.l.id) && (t.r.Br? ==> subst != t.r.id)
  {
  }

  lemma TempFact(h: Heap, c: Ctx, t: Tree)
    requires FixAt(h, c, t)
    ensures RootId(h.s, t) in h.m && (RootId(h.s, t) == h.root <==> c.Top?) && h.m[RootId(h.s, t)].red == IsRed(t)
  {
    ColourOf(h, c, t);
    if t.Br? { ParentOf(h, c, t); }
    if !c.Top? { RootInCtx(h.m, h.s, h.root, RootId(h.s, t), c); }
  }

  lemma SiblingColour(h: Heap, c: Ctx, t: Tree)
    requires FixAt(h, c, t) && DeleteInv(c, t) && !c.Top?
    ensures RootId(h.s, t) in h.m && h.m[RootId(h.s, t)].parent == c.id && c.id in h.m
    ensures Sibling(c).Br? && Sibling(c).id in h.m && h.m[Sibling(c).id].red == IsRed(Sibling(c))
    ensures Sibling(c).id == if c.InL? then h.m[c.id].right else h.m[c.id].left
  {
    SiblingIsNode(c, t);
    ParentFact(h, c, t);
    FocusUp(h, c, t);
    var p := Fill(c, t);
    if c.InL? { FocusRight(h, c.up, p); ColourOf(h, InR(c.up, p.l, p.id, p.key, p.red), p.r); }
    else { FocusLeft(h, c.up, p); ColourOf(h, InL(c.up, p.id, p.key, p.red, p.r), p.l); }
  }

  lemma NephewColours(h: Heap, c: Ctx, t: Tree)
    requires FixAt(h, c, t) && !c.Top? && Sibling(c).Br?
    ensures var w := Sibling(c);
      && w.id in h.m && h.m[w.id].left == RootId(h.s, w.l) && h.m[w.id].right == RootId(h.s, w.r)
      && RootId(h.s, w.l) in h.m && h.m[RootId(h.s, w.l)].red == IsRed(w.l)
      && RootId(h.s, w.r) in h.m && h.m[RootId(h.s, w.r)].red == IsRed(w.r)
  {
    FocusUp(h, c, t);
    var p, w := Fill(c, t), Sibling(c);
    var cw := if c.InL? then InR(c.up, p.l, p.id, p.key, p.red) else InL(c.up, p.id, p.key, p.red, p.r);
    if c.InL? { FocusRight(h, c.up, p); } else { FocusLeft(h, c.up, p); }
    FocusLeft(h, cw, w);
    ColourOf(h, InL(cw, w.id, w.key, w.red, w.r), w.l);
    FocusRight(h, cw, w);
    ColourOf(h, InR(cw, w.l, w.id, w.key, w.red), w.r);
  }

  lemma {:induction false} FocusTop(h: Heap, c: Ctx, t: Tree)
    requires At(h, c, t)
    ensures At(h, Top, Plug(c, t)) && RootId(h.s, Plug(c, t)) == h.root
    decreases c
  {
    if !c.Top? {
      FocusUp(h, c, t);
      FocusTop(h, c.up, Fill(c, t));
    }
  }

  lemma RootOf(h: Heap, t: Tree)
    requires At(h, Top, t)
    ensures h.root == RootId(h.s, t) && (h.root == h.s <==> t.Leaf?) && h.root in h.m
  {
  }

  lemma LeafIfSentinel(h: Heap, c: Ctx, t: Tree)
    requires At(h, c, t)
    ensures RootId(h.s, t) == h.s <==> t.Leaf?
  {
  }

  lemma LeafInv(c: Ctx, node: Id, key: Key)
    requires RedBlack(Plug(c, Leaf))
    ensures InsertInv(c, Br(Leaf, node, key, true, Leaf))
  {
    UnplugGood(c, Leaf);
    var n: nat :| CtxBH(c, n) && HasBH(Leaf, n);
    assert CtxBH(c, 0) && HasBH(Br(Leaf, node, key, true, Leaf), 0);
  }

  lemma BlackIsBlack(t: Tree)
    requires !IsRed(t)
    ensures Blacken(t) == t
  {
  }
}
