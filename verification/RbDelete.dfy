/**
 Deletion from red-black trees as values: a subtree one black node short is repaired on
 the way up, as in lines 257-321 of src/core/ngx_rbtree.c.
 */
module RbDelete {
  import opened RbShape
  import opened RbMemory
  import opened RbOrder

  /** The subtree t has one black node too few on every path, and may be red above red children. */
  ghost predicate DeleteInv(c: Ctx, t: Tree) {
    NoRedRed(Blacken(t)) && CtxOk(c) && exists n: nat :: CtxBH(c, n + 1) && HasBH(t, n)
  }

  /** The loop ends at a red subtree or at the root, which turns black. */
  lemma DeleteDone(c: Ctx, t: Tree)
    requires DeleteInv(c, t) && (c.Top? || IsRed(t))
    ensures RedBlack(Plug(c, Blacken(t))) && Inorder(Plug(c, Blacken(t))) == Inorder(Plug(c, t))
  {
    var n: nat :| CtxBH(c, n + 1) && HasBH(t, n);
    if IsRed(t) {
      assert HasBH(Blacken(t), n + 1);
      PlugGood(c, Blacken(t), n + 1);
    } else {
      PlugGood(c, Blacken(t), n);
    }
    SameInorder(c, t, Blacken(t));
  }

  lemma WholeTree(t: Tree)
    requires RedBlack(t)
    ensures DeleteInv(Top, t)
  {
    var n: nat :| HasBH(t, n);
    assert CtxBH(Top, n + 1) && HasBH(t, n);
  }

  function Sibling(c: Ctx): Tree
    requires !c.Top?
  {
    if c.InL? then c.r else c.l
  }

  /** The sibling of a short subtree is not the sentinel, nor are a red sibling's children. */
  lemma SiblingIsNode(c: Ctx, t: Tree)
    requires DeleteInv(c, t) && !c.Top?
    ensures var w := Sibling(c);
            w.Br? && NoRedRed(w) && (w.red ==> w.l.Br? && w.r.Br? && !w.l.red && !w.r.red && !c.red)
  {
    var n: nat :| CtxBH(c, n + 1) && HasBH(t, n);
    var w := Sibling(c);
    assert HasBH(w, n + 1);
    if w.Br? && w.red { assert HasBH(w.l, n + 1) && HasBH(w.r, n + 1); }
  }

  /** Lines 264-269: a red sibling is rotated above the parent. */
  lemma RedSiblingLeft(c: Ctx, t: Tree, c': Ctx)
    requires DeleteInv(c, t) && c.InL? && IsRed(c.r) && !IsRed(t)
    requires c' == InL(InL(c.up, c.r.id, c.r.key, false, c.r.r), c.id, c.key, true, c.r.l)
    ensures DeleteInv(c', t) && !IsRed(c'.r) && Inorder(Plug(c', t)) == Inorder(Plug(c, t))
  {
    SiblingIsNode(c, t);
    var n: nat :| CtxBH(c, n + 1) && HasBH(t, n);
    var w := c.r;
    assert HasBH(w.l, n + 1) && HasBH(w.r, n + 1);
    assert CtxBH(c'.up, n + 1) && CtxOk(c'.up);
    assert CtxBH(c', n + 1) && HasBH(t, n);
    Regroup(Inorder(t), Inorder(w.l), (c.id, c.key), (w.id, w.key), Inorder(w.r));
    SameInorder(c.up, Br(t, c.id, c.key, c.red, w), Br(Br(t, c.id, c.key, true, w.l), w.id, w.key, false, w.r));
  }

  /** Lines 293-298, the mirror image. */
  lemma RedSiblingRight(c: Ctx, t: Tree, c': Ctx)
    requires DeleteInv(c, t) && c.InR? && IsRed(c.l) && !IsRed(t)
    requires c' == InR(InR(c.up, c.l.l, c.l.id, c.l.key, false), c.l.r, c.id, c.key, true)
    ensures DeleteInv(c', t) && !IsRed(c'.l) && Inorder(Plug(c', t)) == Inorder(Plug(c, t))
  {
    SiblingIsNode(c, t);
    var n: nat :| CtxBH(c, n + 1) && HasBH(t, n);
    var w := c.l;
    assert HasBH(w.l, n + 1) && HasBH(w.r, n + 1);
    assert CtxBH(c'.up, n + 1) && CtxOk(c'.up);
    assert CtxBH(c', n + 1) && HasBH(t, n);
    Regroup(Inorder(w.l), Inorder(w.r), (w.id, w.key), (c.id, c.key), Inorder(t));
    SameInorder(c.up, Br(w, c.id, c.key, c.red, t), Br(w.l, w.id, w.key, false, Br(w.r, c.id, c.key, true, t)));
  }

  /** Lines 271-273 and 300-302: the sibling turns red and the fault moves up. */
  lemma FaultMovesUp(c: Ctx, t: Tree, t': Tree)
    requires DeleteInv(c, t) && !c.Top? && !IsRed(t)
    requires Sibling(c).Br? && !Sibling(c).red && !IsRed(Sibling(c).l) && !IsRed(Sibling(c).r)
    requires t' == if c.InL? then Br(t, c.id, c.key, c.red, c.r.(red := true))
             else Br(c.l.(red := true), c.id, c.key, c.red, t)
    ensures DeleteInv(c.up, t') && Inorder(Plug(c.up, t')) == Inorder(Plug(c, t))
  {
    var n: nat :| CtxBH(c, n + 1) && HasBH(t, n);
    var w := Sibling(c);
    assert HasBH(w.(red := true), n) && NoRedRed(w.(red := true));
    var k := if c.red then n else n + 1;
    assert CtxBH(c.up, k + 1) && HasBH(t', k);
    SameInorder(c.up, if c.InL? then Br(t, c.id, c.key, c.red, w) else Br(w, c.id, c.key, c.red, t), t');
  }

  /** Lines 283-287: the sibling, black with a red outer child, takes the parent's place. */
  lemma OuterNephewLeft(c: Ctx, t: Tree, t': Tree)
    requires DeleteInv(c, t) && c.InL? && !IsRed(t) && c.r.Br? && !c.r.red && IsRed(c.r.r)
    requires t' == Br(Br(t, c.id, c.key, false, c.r.l), c.r.id, c.r.key, c.red, Blacken(c.r.r))
    ensures RedBlack(Plug(c.up, t')) && Inorder(Plug(c.up, t')) == Inorder(Plug(c, t))
  {
    var n: nat :| CtxBH(c, n + 1) && HasBH(t, n);
    var w := c.r;
    BlackenBH(w.r, n);
    assert HasBH(t'.l, n + 1) && NoRedRed(t'.l);
    var k := if c.red then n + 1 else n + 2;
    assert HasBH(t', k);
    PlugGood(c.up, t', k);
    Regroup(Inorder(t), Inorder(w.l), (c.id, c.key), (w.id, w.key), Inorder(w.r));
    SameInorder(c.up, Br(t, c.id, c.key, c.red, w), t');
  }

  /** Lines 312-316, the mirror image. */
  lemma OuterNephewRight(c: Ctx, t: Tree, t': Tree)
    requires DeleteInv(c, t) && c.InR? && !IsRed(t) && c.l.Br? && !c.l.red && IsRed(c.l.l)
    requires t' == Br(Blacken(c.l.l), c.l.id, c.l.key, c.red, Br(c.l.r, c.id, c.key, false, t))
    ensures RedBlack(Plug(c.up, t')) && Inorder(Plug(c.up, t')) == Inorder(Plug(c, t))
  {
    var n: nat :| CtxBH(c, n + 1) && HasBH(t, n);
    var w := c.l;
    BlackenBH(w.l, n);
    assert HasBH(t'.r, n + 1) && NoRedRed(t'.r);
    var k := if c.red then n + 1 else n + 2;
    assert HasBH(t', k);
    PlugGood(c.up, t', k);
    Regroup(Inorder(w.l), Inorder(w.r), (w.id, w.key), (c.id, c.key), Inorder(t));
    SameInorder(c.up, Br(w, c.id, c.key, c.red, t), t');
  }

  /** Lines 276-281: a red inner nephew is rotated above the sibling. */
  lemma InnerNephewLeft(c: Ctx, t: Tree, c': Ctx)
    requires DeleteInv(c, t) && c.InL? && !IsRed(t) && c.r.Br? && !c.r.red && IsRed(c.r.l) && !IsRed(c.r.r)
    requires c' == c.(r := Br(c.r.l.l, c.r.l.id, c.r.l.key, false, Br(c.r.l.r, c.r.id, c.r.key, true, c.r.r)))
    ensures DeleteInv(c', t) && IsRed(c'.r.r) && Inorder(Plug(c', t)) == Inorder(Plug(c, t))
  {
    var n: nat :| CtxBH(c, n + 1) && HasBH(t, n);
    var w := c.r;
    var i := w.l;
    assert HasBH(i, n) && HasBH(w.r, n);
    assert NoRedRed(w) && NoRedRed(i);
    assert HasBH(Br(i.r, w.id, w.key, true, w.r), n) && NoRedRed(Br(i.r, w.id, w.key, true, w.r));
    assert HasBH(c'.r, n + 1) && NoRedRed(c'.r);
    assert CtxBH(c', n + 1) && HasBH(t, n);
    Regroup(Inorder(i.l), Inorder(i.r), (i.id, i.key), (w.id, w.key), Inorder(w.r));
    assert Inorder(w) == Inorder(c'.r);
    SameInorder(c.up, Br(t, c.id, c.key, c.red, w), Br(t, c.id, c.key, c.red, c'.r));
  }

  /** Lines 305-310, the mirror image. */
  lemma InnerNephewRight(c: Ctx, t: Tree, c': Ctx)
    requires DeleteInv(c, t) && c.InR? && !IsRed(t) && c.l.Br? && !c.l.red && IsRed(c.l.r) && !IsRed(c.l.l)
    requires c' == c.(l := Br(Br(c.l.l, c.l.id, c.l.key, true, c.l.r.l), c.l.r.id, c.l.r.key, false, c.l.r.r))
    ensures DeleteInv(c', t) && IsRed(c'.l.l) && Inorder(Plug(c', t)) == Inorder(Plug(c, t))
  {
    var n: nat :| CtxBH(c, n + 1) && HasBH(t, n);
    var w := c.l;
    var i := w.r;
    assert HasBH(i, n) && HasBH(w.l, n);
    assert NoRedRed(w) && NoRedRed(i);
    assert HasBH(Br(w.l, w.id, w.key, true, i.l), n) && NoRedRed(Br(w.l, w.id, w.key, true, i.l));
    assert HasBH(c'.l, n + 1) && NoRedRed(c'.l);
    assert CtxBH(c', n + 1) && HasBH(t, n);
    Regroup(Inorder(w.l), Inorder(i.l), (w.id, w.key), (i.id, i.key), Inorder(i.r));
    assert Inorder(w) == Inorder(c'.l);
    SameInorder(c.up, Br(w, c.id, c.key, c.red, t), Br(c'.l, c.id, c.key, c.red, t));
  }

  // ----- paths -----

  /** The way q continued by base. */
  function Compose(q: Ctx, base: Ctx): Ctx {
    match q
    case Top => base
    case InL(up, id, key, red, r) => InL(Compose(up, base), id, key, red, r)
    case InR(up, l, id, key, red) => InR(Compose(up, base), l, id, key, red)
  }

  lemma {:induction false} ComposePlug(q: Ctx, base: Ctx, t: Tree)
    ensures Plug(Compose(q, base), t) == Plug(base, Plug(q, t))
    decreases q
  {
    if !q.Top? { ComposePlug(q.up, base, Fill(q, t)); }
  }

  lemma {:induction false} ComposeTop(q: Ctx)
    ensures Compose(q, Top) == q
    decreases q
  {
    if !q.Top? { ComposeTop(q.up); }
  }

  lemma {:induction false} FocusDown(h: Heap, q: Ctx, base: Ctx, t: Tree)
    requires At(h, base, Plug(q, t))
    ensures At(h, Compose(q, base), t)
    decreases q
  {
    match q
    case Top =>
    case InL(up, id, key, red, r) => FocusDown(h, up, base, Fill(q, t)); FocusLeft(h, Compose(up, base), Fill(q, t));
    case InR(up, l, id, key, red) => FocusDown(h, up, base, Fill(q, t)); FocusRight(h, Compose(up, base), Fill(q, t));
  }

  lemma {:induction false} FocusBack(h: Heap, q: Ctx, base: Ctx, t: Tree)
    requires At(h, Compose(q, base), t)
    ensures At(h, base, Plug(q, t))
    decreases q
  {
    if !q.Top? {
      FocusUp(h, Compose(q, base), t);
      FocusBack(h, q.up, base, Fill(q, t));
    }
  }

  lemma {:induction false} FindNode(t: Tree, node: Id) returns (q: Ctx, u: Tree)
    requires node in Ids(t)
    ensures u.Br? && u.id == node && Plug(q, u) == t
    decreases t
  {
    if t.id == node {
      q, u := Top, t;
    } else if node in Ids(t.l) {
      q, u := FindNode(t.l, node);
      ComposePlug(q, InL(Top, t.id, t.key, t.red, t.r), u);
      q := Compose(q, InL(Top, t.id, t.key, t.red, t.r));
    } else {
      q, u := FindNode(t.r, node);
      ComposePlug(q, InR(Top, t.l, t.id, t.key, t.red), u);
      q := Compose(q, InR(Top, t.l, t.id, t.key, t.red));
    }
  }

  predicate AllLeft(q: Ctx) { q.Top? || (q.InL? && AllLeft(q.up)) }

  /** The red-black conditions do not depend on which node sits above the path. */
  lemma {:induction false} RenameCtx(q: Ctx, c: Ctx, l: Tree, a: Id, ka: Key, b: Id, kb: Key, red: bool, n: nat)
    requires CtxOk(Compose(q, InR(c, l, a, ka, red))) && CtxBH(Compose(q, InR(c, l, a, ka, red)), n)
    ensures CtxOk(Compose(q, InR(c, l, b, kb, red))) && CtxBH(Compose(q, InR(c, l, b, kb, red)), n)
    decreases q
  {
    if !q.Top? { RenameCtx(q.up, c, l, a, ka, b, kb, red, if q.red then n else n + 1); }
  }

  lemma {:induction false} LeftPathBefore(q: Ctx, base: Ctx)
    requires AllLeft(q)
    ensures Before(Compose(q, base)) == Before(base)
    ensures After(Compose(q, base)) == After(q) + After(base)
    decreases q
  {
    if !q.Top? { LeftPathBefore(q.up, base); }
  }

  // ----- the tree without the node -----

  lemma OnlyChildStays(p: Order, l: Order, e: (Id, Key), r: Order, q: Order, x: Order)
    requires (l == [] && x == r) || (r == [] && x == l)
    ensures Without(p + x + q, p + (l + [e] + r) + q, e, p + l, r + q)
  {
    assert p + l + [e] + (r + q) == p + (l + [e] + r) + q;
    assert p + l + (r + q) == p + x + q;
  }

  lemma NextStandsIn(p: Order, l: Order, e: (Id, Key), f: (Id, Key), x: Order, q: Order)
    ensures Without((p + l + [f]) + x + q, (p + l + [e]) + ([f] + x) + q, e, p + l, [f] + x + q)
  {
    assert p + l + [e] + ([f] + x + q) == (p + l + [e]) + ([f] + x) + q;
    assert p + l + ([f] + x + q) == (p + l + [f]) + x + q;
  }

  lemma OneChildInorder(c: Ctx, t: Tree, x: Tree)
    requires t.Br? && ((t.l.Leaf? && x == t.r) || (t.r.Leaf? && x == t.l))
    ensures Without(Inorder(Plug(c, x)), Inorder(Plug(c, t)), (t.id, t.key), Before(c) + Inorder(t.l),
              Inorder(t.r) + After(c))
  {
    PlugInorder(c, t);
    PlugInorder(c, x);
    OnlyChildStays(Before(c), Inorder(t.l), (t.id, t.key), Inorder(t.r), After(c), Inorder(x));
  }

  /** A node with at most one child is replaced by that child. */
  lemma OneChildGone(c: Ctx, t: Tree, x: Tree)
    requires RedBlack(Plug(c, t)) && t.Br? && ((t.l.Leaf? && x == t.r) || (t.r.Leaf? && x == t.l))
    ensures c.Top? ==> RedBlack(Blacken(x)) && Inorder(Blacken(x)) == Inorder(x)
    ensures !c.Top? && t.red ==> RedBlack(Plug(c, x))
    ensures !c.Top? && !t.red ==> DeleteInv(c, x)
  {
    UnplugGood(c, t);
    var n: nat :| CtxBH(c, n) && HasBH(t, n);
    if t.red {
      PlugGood(c, x, n);
    } else {
      assert CtxBH(c, (n - 1) + 1) && HasBH(x, n - 1);
      if c.Top? {
        WholeBlack(x, n - 1);
      }
    }
  }

  lemma WholeBlack(x: Tree, n: nat)
    requires HasBH(x, n) && NoRedRed(x)
    ensures RedBlack(Blacken(x)) && Inorder(Blacken(x)) == Inorder(x)
  {
    if IsRed(x) { assert HasBH(Blacken(x), n + 1); }
  }

  /** A node with two children is replaced by its successor, the leftmost node of its right subtree. */
  lemma TwoChildrenGone(c: Ctx, t: Tree, q: Ctx, m: Tree, c': Ctx)
    requires RedBlack(Plug(c, t)) && t.Br? && t.r == Plug(q, m) && AllLeft(q) && m.Br? && m.l.Leaf?
    requires c' == Compose(q, InR(c, t.l, m.id, m.key, t.red))
    ensures m.red ==> RedBlack(Plug(c', m.r))
    ensures !m.red ==> DeleteInv(c', m.r)
  {
    var cm := Compose(q, InR(c, t.l, t.id, t.key, t.red));
    ComposePlug(q, InR(c, t.l, t.id, t.key, t.red), m);
    UnplugGood(cm, m);
    var n: nat :| CtxBH(cm, n) && HasBH(m, n);
    RenameCtx(q, c, t.l, t.id, t.key, m.id, m.key, t.red, n);
    if m.red {
      PlugGood(c', m.r, n);
    } else {
      assert CtxBH(c', (n - 1) + 1) && HasBH(m.r, n - 1);
    }
  }

  /** What lies around the end of the path q, taken to the right of a node. */
  lemma AroundSuccessor(q: Ctx, c: Ctx, l: Tree, id: Id, key: Key, red: bool, m: Tree)
    requires AllLeft(q)
    ensures Inorder(Plug(Compose(q, InR(c, l, id, key, red)), m))
         == (Before(c) + Inorder(l) + [(id, key)]) + Inorder(m) + (After(q) + After(c))
  {
    var base := InR(c, l, id, key, red);
    PlugInorder(Compose(q, base), m);
    LeftPathBefore(q, base);
    assert Before(base) == Before(c) + Inorder(l) + [(id, key)] && After(base) == After(c);
  }

  lemma OnlyRight(m: Tree)
    requires m.Br? && m.l.Leaf?
    ensures Inorder(m) == [(m.id, m.key)] + Inorder(m.r)
  {
    assert Inorder(m.l) == [];
  }

  lemma SuccessorMoves(c: Ctx, t: Tree, q: Ctx, m: Tree) returns (b: Order, a: Order)
    requires t.Br? && t.r == Plug(q, m) && AllLeft(q) && m.Br? && m.l.Leaf?
    ensures Without(Inorder(Plug(Compose(q, InR(c, t.l, m.id, m.key, t.red)), m.r)), Inorder(Plug(c, t)), (t.id, t.key),
              b, a)
  {
    var base := InR(c, t.l, t.id, t.key, t.red);
    ComposePlug(q, base, m);
    assert Plug(Compose(q, base), m) == Plug(c, t);
    AroundSuccessor(q, c, t.l, t.id, t.key, t.red, m);
    AroundSuccessor(q, c, t.l, m.id, m.key, t.red, m.r);
    OnlyRight(m);
    var z := After(q) + After(c);
    NextStandsIn(Before(c), Inorder(t.l), (t.id, t.key), (m.id, m.key), Inorder(m.r), z);
    b, a := Before(c) + Inorder(t.l), [(m.id, m.key)] + Inorder(m.r) + z;
  }
}
