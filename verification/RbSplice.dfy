/**
 Taking a node out of the links: lines 187-251 of src/core/ngx_rbtree.c.  A node with at
 most one child is bypassed; a node with two children hands its place to its successor.
 */
module RbSplice {
  import opened RbShape
  import opened RbMemory
  import opened RbDelete

  lemma NodeFields(h: Heap, c: Ctx, t: Tree)
    requires At(h, c, t) && t.Br?
    ensures t.id in h.m && t.id != h.s && h.m[t.id].key == t.key && h.m[t.id].red == t.red
    ensures h.m[t.id].left == RootId(h.s, t.l) && (h.m[t.id].left == h.s <==> t.l.Leaf?)
    ensures h.m[t.id].right == RootId(h.s, t.r) && (h.m[t.id].right == h.s <==> t.r.Leaf?)
  {
    FocusLeft(h, c, t);
    FocusRight(h, c, t);
  }

  /** Lines 191-195 and 247-251: what is left in the removed node. */
  function Cleared(n: Node): Node { Node(Key(0, n.key.name), 0, 0, 0, n.red) }

  /** A node outside the tree may change. */
  lemma ForgetAt(h: Heap, c: Ctx, t: Tree, node: Id, n: Node)
    requires At(h, c, t) && node !in Ids(t) && node !in CtxIds(c) && node != h.s
    ensures At(h.(m := h.m[node := n]), c, t)
  {
    var m' := h.m[node := n];
    RepFrame(h.m, m', h.s, PId(c), c.Top?, t);
    CtxFrame(h.m, m', h.s, h.root, RootId(h.s, t), c);
  }

  predicate OnlyChild(t: Tree, x: Tree) {
    t.Br? && ((t.l.Leaf? && x == t.r) || (t.r.Leaf? && x == t.l))
  }

  lemma Loosen(m: Store, s: Id, par: Id, t: Tree)
    requires Rep(m, s, par, false, t)
    ensures Rep(m, s, 0, true, t) && (t.Br? ==> t.id in m && t.id != s)
  {
  }

  /** Line 188: the child of a root becomes the root. */
  lemma RootChild(h: Heap, t: Tree, x: Tree)
    requires At(h, Top, t) && OnlyChild(t, x)
    ensures At(h.(root := RootId(h.s, x)), Top, x) && t.id !in Ids(x) && t.id != h.s
  {
    assert Rep(h.m, h.s, t.id, false, t.l) && Rep(h.m, h.s, t.id, false, t.r);
    Loosen(h.m, h.s, t.id, x);
  }

  // ----- bypassing a node -----

  /** t's only child x hangs where t did, with the given parent; t's own record stays. */
  ghost predicate Spliced(h: Heap, h': Heap, c: Ctx, x: Tree, parent: Id)
    requires !c.Top?
  {
    && h'.s == h.s && h'.root == h.root && h'.m.Keys == h.m.Keys
    && c.id in h.m && h'.m[c.id] == (if c.InL? then h.m[c.id].(left := RootId(h.s, x))
         else h.m[c.id].(right := RootId(h.s, x)))
    && RootId(h.s, x) in h.m && h'.m[RootId(h.s, x)] == h.m[RootId(h.s, x)].(parent := parent)
    && forall i :: i in h.m && i != c.id && i != RootId(h.s, x) ==> h'.m[i] == h.m[i]
  }

  lemma SpliceReady(h: Heap, c: Ctx, t: Tree, x: Tree)
    requires At(h, c, t) && !c.Top? && OnlyChild(t, x)
    ensures RootId(h.s, x) in h.m && RootId(h.s, x) != c.id && RootId(h.s, x) != t.id
    ensures t.id !in Ids(x) && t.id !in CtxIds(c) && Ids(x) <= Ids(t) && c.id != t.id
  {
    ParentOf(h, c, t);
    assert Rep(h.m, h.s, t.id, false, t.l) && Rep(h.m, h.s, t.id, false, t.r);
    if x.Br? { assert x.id in Ids(x) && x.id in Ids(t); }
    assert c.id in CtxIds(c) && t.id in Ids(t);
  }

  lemma SplicedAt(h: Heap, h': Heap, c: Ctx, t: Tree, x: Tree)
    requires At(h, c, t) && !c.Top? && OnlyChild(t, x) && Spliced(h, h', c, x, c.id)
    ensures FixAt(h', c, x)
  {
    SpliceReady(h, c, t, x);
    ParentOf(h, c, t);
    Rehang(h.m, h'.m, h.s, h.root, h'.root, t.id, RootId(h.s, x), c);
    Reparent(h.m, h'.m, h.s, t.id, c.id, x);
  }

  /** At, but nothing is known of the parents of t's children. */
  ghost predicate Loose(h: Heap, c: Ctx, t: Tree) {
    && t.Br? && h.s in h.m && !h.m[h.s].red
    && NodeIs(h.m, h.s, t.id, t.key, t.red, RootId(h.s, t.l), RootId(h.s, t.r)) && (c.Top? || h.m[t.id].parent == c.id)
    && Rep(h.m, h.s, 0, true, t.l) && Rep(h.m, h.s, 0, true, t.r)
    && t.id !in Ids(t.l) && t.id !in Ids(t.r) && Ids(t.l) !! Ids(t.r)
    && RepCtx(h.m, h.s, h.root, t.id, c) && Ids(t) !! CtxIds(c)
  }

  lemma AtLoose(h: Heap, c: Ctx, t: Tree)
    requires At(h, c, t) && t.Br?
    ensures Loose(h, c, t)
  {
    Loosen(h.m, h.s, t.id, t.l);
    Loosen(h.m, h.s, t.id, t.r);
  }

  /** The right child t of node c.id is spliced out and its child has some other parent. */
  lemma SplicedLoose(h: Heap, h': Heap, c: Ctx, t: Tree, x: Tree, parent: Id)
    requires At(h, c, t) && c.InR? && OnlyChild(t, x) && Spliced(h, h', c, x, parent)
    ensures Loose(h', c.up, Fill(c, x)) && (x.Leaf? ==> h'.m[h.s].parent == parent)
  {
    SpliceReady(h, c, t, x);
    ParentOf(h, c, t);
    Rehang(h.m, h'.m, h.s, h.root, h'.root, t.id, RootId(h.s, x), c);
    Reparent(h.m, h'.m, h.s, t.id, parent, x);
  }

  // ----- handing the place over -----

  /** subst has t's links and colour, and whatever led to t leads to subst. */
  ghost predicate Replaced(h: Heap, h': Heap, c: Ctx, t: Tree, subst: Id)
    requires t.Br?
  {
    && h'.s == h.s && h'.root == (if c.Top? then subst else h.root) && h'.m.Keys == h.m.Keys
    && subst in h.m && t.id in h.m && h'.m[subst] == h.m[t.id].(key := h.m[subst].key)
    && (t.l.Br? ==> t.l.id in h.m && h'.m[t.l.id] == h.m[t.l.id].(parent := subst))
    && (t.r.Br? ==> t.r.id in h.m && h'.m[t.r.id] == h.m[t.r.id].(parent := subst))
    && (!c.Top? ==>
         c.id in h.m && h'.m[c.id] == if c.InL? then h.m[c.id].(left := subst) else h.m[c.id].(right := subst))
    && (forall i ::
         i in h.m && i != subst && (t.l.Br? ==> i != t.l.id) && (t.r.Br? ==> i != t.r.id) && (c.Top? || i != c.id) ==>
           h'.m[i] == h.m[i])
  }

  /** What lines 222-244 rely on: the neighbours of t and that they are different nodes. */
  ghost predicate Neighbours(h: Heap, c: Ctx, t: Tree) {
    && t.Br? && t.id in h.m && t.id != h.s && h.s !in CtxIds(c) && t.id !in CtxIds(c)
    && h.m[t.id].left == RootId(h.s, t.l) && h.m[t.id].right == RootId(h.s, t.r)
    && (t.id == h.root <==> c.Top?)
    && (!c.Top? ==> h.m[t.id].parent == c.id && c.id in h.m && c.id != t.id && (h.m[c.id].left == t.id <==> c.InL?))
    && (t.l.Br? ==> t.l.id in h.m && t.l.id != h.s && t.l.id !in CtxIds(c) && t.l.id != t.id)
    && (t.r.Br? ==> t.r.id in h.m && t.r.id != h.s && t.r.id !in CtxIds(c) && t.r.id != t.id)
    && (t.l.Br? && t.r.Br? ==> t.l.id != t.r.id)
  }

  lemma LooseFacts(h: Heap, c: Ctx, t: Tree)
    requires Loose(h, c, t)
    ensures Neighbours(h, c, t) && h.s !in Ids(t)
  {
    SentinelNotIn(h.m, h.s, 0, true, t.l);
    SentinelNotIn(h.m, h.s, 0, true, t.r);
    assert t.id in Ids(t);
    if t.l.Br? { assert t.l.id in Ids(t.l) && t.l.id in Ids(t); }
    if t.r.Br? { assert t.r.id in Ids(t.r) && t.r.id in Ids(t); }
    if !c.Top? {
      RootInCtx(h.m, h.s, h.root, t.id, c);
      if c.InR? && c.l.Br? { assert c.l.id in CtxIds(c); }
    }
  }

  lemma AdoptLoose(m: Store, m': Store, s: Id, par: Id, t: Tree)
    requires Rep(m, s, 0, true, t)
    requires t.Br? ==> t.id in m && t.id in m' && m'[t.id] == m[t.id].(parent := par) && Agree(m, m', Ids(t) - {t.id})
    ensures Rep(m', s, par, false, t)
  {
    if t.Br? {
      RepFrame(m, m', s, t.id, false, t.l);
      RepFrame(m, m', s, t.id, false, t.r);
    }
  }

  lemma ReplacedLeft(h: Heap, h': Heap, c: Ctx, t: Tree, subst: Id)
    requires Loose(h, c, t) && Replaced(h, h', c, t, subst) && subst !in Ids(t)
    ensures Rep(h'.m, h.s, subst, false, t.l)
  {
    LooseFacts(h, c, t);
    AdoptLoose(h.m, h'.m, h.s, subst, t.l);
  }

  lemma ReplacedRight(h: Heap, h': Heap, c: Ctx, t: Tree, subst: Id)
    requires Loose(h, c, t) && Replaced(h, h', c, t, subst) && subst !in Ids(t)
    ensures Rep(h'.m, h.s, subst, false, t.r)
  {
    LooseFacts(h, c, t);
    AdoptLoose(h.m, h'.m, h.s, subst, t.r);
  }

  lemma ReplacedAbove(h: Heap, h': Heap, c: Ctx, t: Tree, subst: Id)
    requires Loose(h, c, t) && Replaced(h, h', c, t, subst) && subst !in CtxIds(c)
    ensures RepCtx(h'.m, h.s, h'.root, subst, c)
  {
    LooseFacts(h, c, t);
    Rehang(h.m, h'.m, h.s, h.root, h'.root, t.id, subst, c);
  }

  lemma ReplacedSentinel(h: Heap, h': Heap, c: Ctx, t: Tree, subst: Id)
    requires Loose(h, c, t) && Replaced(h, h', c, t, subst) && subst != h.s
    ensures h.s in h'.m && h'.m[h.s] == h.m[h.s]
  {
    LooseFacts(h, c, t);
  }

  lemma Assembled(h: Heap, c: Ctx, t: Tree, subst: Id, key: Key)
    requires t.Br? && h.s in h.m && !h.m[h.s].red && subst !in Ids(t) && subst !in CtxIds(c)
    requires NodeIs(h.m, h.s, subst, key, t.red, RootId(h.s, t.l), RootId(h.s, t.r))
    requires c.Top? || h.m[subst].parent == c.id
    requires Rep(h.m, h.s, subst, false, t.l) && Rep(h.m, h.s, subst, false, t.r) && Ids(t.l) !! Ids(t.r)
    requires RepCtx(h.m, h.s, h.root, subst, c) && Ids(t) !! CtxIds(c)
    ensures At(h, c, Br(t.l, subst, key, t.red, t.r))
  {
    var n := Br(t.l, subst, key, t.red, t.r);
    assert Rep(h.m, h.s, PId(c), c.Top?, n);
    assert Ids(n) !! CtxIds(c) by { assert Ids(n) == Ids(t.l) + {subst} + Ids(t.r); }
  }

  lemma ReplacedAt(h: Heap, h': Heap, c: Ctx, t: Tree, subst: Id, key: Key)
    requires Loose(h, c, t) && Replaced(h, h', c, t, subst) && h.m[subst].key == key
    requires subst != h.s && subst !in Ids(t) && subst !in CtxIds(c)
    ensures At(h', c, Br(t.l, subst, key, t.red, t.r)) && h'.m[h.s] == h.m[h.s]
  {
    ReplacedSentinel(h, h', c, t, subst);
    ReplacedLeft(h, h', c, t, subst);
    ReplacedRight(h, h', c, t, subst);
    ReplacedAbove(h, h', c, t, subst);
    Assembled(h', c, t, subst, key);
  }

  // ----- the successor -----

  lemma {:induction false} ComposeIds(q: Ctx, base: Ctx)
    ensures CtxIds(Compose(q, base)) == CtxIds(q) + CtxIds(base)
    decreases q
  {
    if !q.Top? { ComposeIds(q.up, base); }
  }

  /** t has two children and m, at the end of the path q, is its successor. */
  ghost predicate Successor(h: Heap, c: Ctx, t: Tree, q: Ctx, m: Tree) {
    && At(h, c, t) && t.Br? && t.r == Plug(q, m) && m.Br? && m.l.Leaf?
    && At(h, Compose(q, InR(c, t.l, t.id, t.key, t.red)), m)
  }

  /** The path to the successor begins at the node that goes away. */
  lemma SuccessorIds(h: Heap, c: Ctx, t: Tree, q: Ctx, m: Tree)
    requires Successor(h, c, t, q, m)
    ensures m.id !in Ids(t.l) && m.id !in Ids(Plug(q, m.r)) && m.id !in CtxIds(c) && m.id != t.id && m.id != h.s
    ensures t.id !in Ids(m.r) && t.id !in CtxIds(q) && t.id !in Ids(t.l) && t.id !in CtxIds(c) && t.id != h.s
    ensures !q.Top? ==> q.id != t.id
  {
    PlugIds(q, m);
    PlugIds(q, m.r);
    ComposeIds(q, InR(c, t.l, t.id, t.key, t.red));
    assert m.id in Ids(m) && t.id in Ids(t);
    if !q.Top? { assert q.id in CtxIds(q); }
  }

  lemma ComposeHead(q: Ctx, base: Ctx)
    requires !base.Top?
    ensures !Compose(q, base).Top? && Compose(q, base).id == if q.Top? then base.id else q.id
  {
  }

  /** After the successor is spliced out, with its child's parent set as lines 215-220 do. */
  lemma SplicedSuccessor(h: Heap, h': Heap, c: Ctx, t: Tree, q: Ctx, m: Tree)
    requires Successor(h, c, t, q, m)
    requires var cm := Compose(q, InR(c, t.l, t.id, t.key, t.red));
             !cm.Top? && Spliced(h, h', cm, m.r, if q.Top? then m.id else q.id)
    ensures Loose(h', c, t.(r := Plug(q, m.r)))
    ensures m.r.Leaf? ==> h'.m[h.s].parent == if q.Top? then m.id else q.id
  {
    var base := InR(c, t.l, t.id, t.key, t.red);
    if q.Top? {
      SplicedLoose(h, h', base, m, m.r, m.id);
    } else {
      SplicedAt(h, h', Compose(q, base), m, m.r);
      FocusBack(h', q, base, m.r);
      FocusUp(h', base, Plug(q, m.r));
      AtLoose(h', c, t.(r := Plug(q, m.r)));
    }
  }

  /** After the successor has taken the node's place. */
  lemma ReplacedSuccessor(h: Heap, h': Heap, c: Ctx, t: Tree, q: Ctx, m: Tree)
    requires t.Br? && m.Br? && Loose(h, c, t.(r := Plug(q, m.r))) && Replaced(h, h', c, t.(r := Plug(q, m.r)), m.id)
    requires m.r.Leaf? ==> h.m[h.s].parent == if q.Top? then m.id else q.id
    requires h.m[m.id].key == m.key
    requires m.id !in Ids(t.l) && m.id !in Ids(Plug(q, m.r)) && m.id !in CtxIds(c) && m.id != t.id && m.id != h.s
    ensures FixAt(h', Compose(q, InR(c, t.l, m.id, m.key, t.red)), m.r)
  {
    var t' := t.(r := Plug(q, m.r));
    ReplacedAt(h, h', c, t', m.id, m.key);
    var u := Br(t.l, m.id, m.key, t.red, t'.r);
    FocusRight(h', c, u);
    var base := InR(c, t.l, m.id, m.key, t.red);
    FocusDown(h', q, base, m.r);
    ComposeHead(q, base);
  }
}
