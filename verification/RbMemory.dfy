/**
 Red-black trees in memory: nodes with left, right and parent links and a shared
 sentinel, the relation between links and tree values, and the two rotations.
 The parent of the root and of the sentinel is never relied on.
 */
module RbMemory {
  import opened RbShape

  datatype Node = Node(key: Key, left: Id, right: Id, parent: Id, red: bool)

  type Store = map<Id, Node>

  /** tree->root and tree->sentinel with the nodes they reach. */
  datatype Heap = Heap(m: Store, root: Id, s: Id)

  function RootId(s: Id, t: Tree): Id { if t.Leaf? then s else t.id }

  /** Node id has these links, key and colour. */
  predicate NodeIs(m: Store, s: Id, id: Id, key: Key, red: bool, left: Id, right: Id) {
    id != s && id in m && m[id].key == key && m[id].red == red && m[id].left == left && m[id].right == right
  }

  /** The memory below the root of t is t; its root has parent par unless loose. */
  ghost predicate Rep(m: Store, s: Id, par: Id, loose: bool, t: Tree)
    decreases t
  {
    t.Br? ==>
      && NodeIs(m, s, t.id, t.key, t.red, RootId(s, t.l), RootId(s, t.r)) && (loose || m[t.id].parent == par)
      && Rep(m, s, t.id, false, t.l) && Rep(m, s, t.id, false, t.r)
      && t.id !in Ids(t.l) && t.id !in Ids(t.r) && Ids(t.l) !! Ids(t.r)
  }

  /** The memory around a subtree with root x is c. */
  ghost predicate RepCtx(m: Store, s: Id, root: Id, x: Id, c: Ctx)
    decreases c
  {
    match c
    case Top => x == root
    case InL(up, id, key, red, r) =>
      && NodeIs(m, s, id, key, red, x, RootId(s, r)) && (up.Top? || m[id].parent == up.id)
      && Rep(m, s, id, false, r) && RepCtx(m, s, root, id, up)
      && id !in Ids(r) && id !in CtxIds(up) && Ids(r) !! CtxIds(up)
    case InR(up, l, id, key, red) =>
      && NodeIs(m, s, id, key, red, RootId(s, l), x) && (up.Top? || m[id].parent == up.id)
      && Rep(m, s, id, false, l) && RepCtx(m, s, root, id, up)
      && id !in Ids(l) && id !in CtxIds(up) && Ids(l) !! CtxIds(up)
  }

  function PId(c: Ctx): Id { if c.Top? then 0 else c.id }

  /** The heap holds Plug(c, t), looked at from the subtree t. */
  ghost predicate At(h: Heap, c: Ctx, t: Tree) {
    && h.s in h.m && !h.m[h.s].red
    && Rep(h.m, h.s, PId(c), c.Top?, t) && RepCtx(h.m, h.s, h.root, RootId(h.s, t), c)
    && Ids(t) !! CtxIds(c)
  }

  // ----- frames -----

  ghost predicate Agree(m: Store, m': Store, ids: set<Id>) {
    forall i :: i in ids && i in m ==> i in m' && m'[i] == m[i]
  }

  lemma {:induction false} RepFrame(m: Store, m': Store, s: Id, par: Id, loose: bool, t: Tree)
    requires Rep(m, s, par, loose, t) && Agree(m, m', Ids(t))
    ensures Rep(m', s, par, loose, t)
    decreases t
  {
    if t.Br? {
      RepFrame(m, m', s, t.id, false, t.l);
      RepFrame(m, m', s, t.id, false, t.r);
    }
  }

  lemma {:induction false} CtxFrame(m: Store, m': Store, s: Id, root: Id, x: Id, c: Ctx)
    requires RepCtx(m, s, root, x, c) && Agree(m, m', CtxIds(c))
    ensures RepCtx(m', s, root, x, c)
    decreases c
  {
    match c
    case Top =>
    case InL(up, id, _, _, r) => RepFrame(m, m', s, id, false, r); CtxFrame(m, m', s, root, id, up);
    case InR(up, l, id, _, _) => RepFrame(m, m', s, id, false, l); CtxFrame(m, m', s, root, id, up);
  }

  /** The subtree's root is replaced: only the link that leads to it changes. */
  lemma Rehang(m: Store, m': Store, s: Id, root: Id, root': Id, x: Id, x': Id, c: Ctx)
    requires RepCtx(m, s, root, x, c) && root' == (if c.Top? then x' else root)
    requires !c.Top? ==>
      c.id in m && c.id in m' && m'[c.id] == (if c.InL? then m[c.id].(left := x') else m[c.id].(right := x'))
    requires !c.Top? ==> Agree(m, m', CtxIds(c) - {c.id})
    ensures RepCtx(m', s, root', x', c)
  {
    match c
    case Top =>
    case InL(up, id, _, _, r) => RepFrame(m, m', s, id, false, r); CtxFrame(m, m', s, root, id, up);
    case InR(up, l, id, _, _) => RepFrame(m, m', s, id, false, l); CtxFrame(m, m', s, root, id, up);
  }

  lemma {:induction false} RootInCtx(m: Store, s: Id, root: Id, x: Id, c: Ctx)
    requires RepCtx(m, s, root, x, c) && !c.Top?
    ensures root in CtxIds(c) && s !in CtxIds(c)
    decreases c
  {
    if !c.up.Top? { RootInCtx(m, s, root, c.id, c.up); }
    match c
    case InL(_, _, _, _, r) => SentinelNotIn(m, s, c.id, false, r);
    case InR(_, l, _, _, _) => SentinelNotIn(m, s, c.id, false, l);
  }

  lemma {:induction false} SentinelNotIn(m: Store, s: Id, par: Id, loose: bool, t: Tree)
    requires Rep(m, s, par, loose, t)
    ensures s !in Ids(t) && forall i :: i in Ids(t) ==> i in m
    decreases t
  {
    if t.Br? {
      SentinelNotIn(m, s, t.id, false, t.l);
      SentinelNotIn(m, s, t.id, false, t.r);
    }
  }

  /** A subtree gets another parent. */
  lemma Reparent(m: Store, m': Store, s: Id, par: Id, par': Id, t: Tree)
    requires Rep(m, s, par, false, t)
    requires t.Br? ==> t.id in m && t.id in m' && m'[t.id] == m[t.id].(parent := par') && Agree(m, m', Ids(t) - {t.id})
    ensures Rep(m', s, par', false, t)
  {
    if t.Br? {
      RepFrame(m, m', s, t.id, false, t.l);
      RepFrame(m, m', s, t.id, false, t.r);
    }
  }

  // ----- rotations -----

  function RotL(t: Tree): Tree
    requires t.Br? && t.r.Br?
  {
    Br(Br(t.l, t.id, t.key, t.red, t.r.l), t.r.id, t.r.key, t.r.red, t.r.r)
  }

  function RotR(t: Tree): Tree
    requires t.Br? && t.l.Br?
  {
    Br(t.l.l, t.l.id, t.l.key, t.l.red, Br(t.l.r, t.id, t.key, t.red, t.r))
  }

  /** node->parent's link to node now leads to temp, or temp is the new root. */
  function Relink(h: Heap, node: Id, temp: Id): (h': Heap)
    ensures h'.m.Keys == h.m.Keys
    requires node in h.m && (node != h.root ==> h.m[node].parent in h.m)
  {
    if node == h.root then h.(root := temp)
    else
      var p := h.m[node].parent;
      if node == h.m[p].left then h.(m := h.m[p := h.m[p].(left := temp)])
      else h.(m := h.m[p := h.m[p].(right := temp)])
  }

  predicate CanRotate(h: Heap, node: Id, temp: Id, inner: Id) {
    node in h.m && temp in h.m && temp != node && inner in h.m && (node != h.root ==> h.m[node].parent in h.m)
    && (inner != h.s ==> inner != node && inner != temp)
  }

  /** ngx_rbtree_left_rotate, lines 325-352 */
  function RotateLeft(h: Heap, node: Id): (h': Heap)
    ensures h'.m.Keys == h.m.Keys
    requires node in h.m && h.m[node].right in h.m && CanRotate(h, node, h.m[node].right, h.m[h.m[node].right].left)
  {
    var temp := h.m[node].right;
    var inner := h.m[temp].left;
    var m1 := h.m[node := h.m[node].(right := inner)];
    var m2 := if inner != h.s then m1[inner := m1[inner].(parent := node)] else m1;
    var m3 := m2[temp := m2[temp].(parent := m2[node].parent)];
    var h4 := Relink(h.(m := m3), node, temp);
    var m5 := h4.m[temp := h4.m[temp].(left := node)];
    h4.(m := m5[node := m5[node].(parent := temp)])
  }

  /** ngx_rbtree_right_rotate, lines 355-382 */
  function RotateRight(h: Heap, node: Id): (h': Heap)
    ensures h'.m.Keys == h.m.Keys
    requires node in h.m && h.m[node].left in h.m && CanRotate(h, node, h.m[node].left, h.m[h.m[node].left].right)
  {
    var temp := h.m[node].left;
    var inner := h.m[temp].right;
    var m1 := h.m[node := h.m[node].(left := inner)];
    var m2 := if inner != h.s then m1[inner := m1[inner].(parent := node)] else m1;
    var m3 := m2[temp := m2[temp].(parent := m2[node].parent)];
    var h4 := Relink(h.(m := m3), node, temp);
    var m5 := h4.m[temp := h4.m[temp].(right := node)];
    h4.(m := m5[node := m5[node].(parent := temp)])
  }

  lemma ParentOf(h: Heap, c: Ctx, t: Tree)
    requires At(h, c, t) && t.Br?
    ensures t.id == h.root <==> c.Top?
    ensures !c.Top? ==> h.m[t.id].parent == c.id && c.id in h.m && c.id != t.id && (h.m[c.id].left == t.id <==> c.InL?)
    ensures h.s !in Ids(t) && h.s !in CtxIds(c)
  {
    SentinelNotIn(h.m, h.s, PId(c), c.Top?, t);
    if !c.Top? {
      RootInCtx(h.m, h.s, h.root, t.id, c);
      match c
      case InL(_, _, _, _, _) =>
      case InR(_, l, _, _, _) => assert l.Br? ==> l.id in CtxIds(c);
    }
  }

  lemma RotateLeftReady(h: Heap, c: Ctx, t: Tree)
    requires At(h, c, t) && t.Br? && t.r.Br?
    ensures t.id in h.m && h.m[t.id].right == t.r.id && t.r.id in h.m && h.m[t.r.id].left == RootId(h.s, t.r.l)
    ensures CanRotate(h, t.id, t.r.id, RootId(h.s, t.r.l))
  {
    ParentOf(h, c, t);
    assert Rep(h.m, h.s, t.id, false, t.r);
    assert t.r.id in Ids(t.r);
    if t.r.l.Br? {
      assert Rep(h.m, h.s, t.r.id, false, t.r.l);
      assert t.r.l.id in Ids(t.r.l) && t.r.l.id in Ids(t.r);
    }
  }

  /** The links after a left rotation of t in context c. */
  ghost predicate LeftRotated(h: Heap, h': Heap, c: Ctx, t: Tree)
    requires t.Br? && t.r.Br?
  {
    && h'.s == h.s && h'.root == (if c.Top? then t.r.id else h.root) && h'.m.Keys == h.m.Keys
    && t.id in h.m && h'.m[t.id] == h.m[t.id].(right := RootId(h.s, t.r.l), parent := t.r.id)
    && t.r.id in h.m && h'.m[t.r.id] == h.m[t.r.id].(left := t.id, parent := h.m[t.id].parent)
    && (t.r.l.Br? ==> t.r.l.id in h.m && h'.m[t.r.l.id] == h.m[t.r.l.id].(parent := t.id))
    && (!c.Top? ==> c.id in h.m && h'.m[c.id] == if c.InL? then h.m[c.id].(left := t.r.id)
         else h.m[c.id].(right := t.r.id))
    && (forall i :: i in h.m && i != t.id && i != t.r.id && (t.r.l.Br? ==> i != t.r.l.id) && (c.Top? || i != c.id) ==>
         h'.m[i] == h.m[i])
  }

  lemma RotateLeftLinks(h: Heap, c: Ctx, t: Tree)
    requires At(h, c, t) && t.Br? && t.r.Br?
    requires t.id in h.m && h.m[t.id].right == t.r.id && t.r.id in h.m && h.m[t.r.id].left == RootId(h.s, t.r.l)
    requires CanRotate(h, t.id, t.r.id, RootId(h.s, t.r.l))
    ensures LeftRotated(h, RotateLeft(h, t.id), c, t)
  {
    ParentOf(h, c, t);
    assert t.r.id in Ids(t);
    if t.r.l.Br? { assert t.r.l.id in Ids(t.r.l) && t.r.l.id in Ids(t); }
    if !c.Top? { assert c.id in CtxIds(c); }
  }

  lemma LeftRotatedParts(h: Heap, h': Heap, c: Ctx, t: Tree)
    requires Rep(h.m, h.s, PId(c), c.Top?, t) && t.Br? && t.r.Br? && LeftRotated(h, h', c, t)
    requires !c.Top? ==> c.id !in Ids(t)
    ensures Rep(h'.m, h.s, t.r.id, false, Br(t.l, t.id, t.key, t.red, t.r.l)) && Rep(h'.m, h.s, t.r.id, false, t.r.r)
  {
    assert Rep(h.m, h.s, t.id, false, t.l) && Rep(h.m, h.s, t.id, false, t.r);
    var a, b, e := t.l, t.r.l, t.r.r;
    assert Rep(h.m, h.s, t.r.id, false, b) && Rep(h.m, h.s, t.r.id, false, e);
    assert t.r.id in Ids(t.r) && Ids(b) <= Ids(t.r) && Ids(e) <= Ids(t.r);
    if b.Br? { assert b.id in Ids(b); }
    RepFrame(h.m, h'.m, h.s, t.id, false, a);
    RepFrame(h.m, h'.m, h.s, t.r.id, false, e);
    Reparent(h.m, h'.m, h.s, t.r.id, t.id, b);
  }

  lemma LeftRotatedFocus(h: Heap, h': Heap, c: Ctx, t: Tree)
    requires Rep(h.m, h.s, PId(c), c.Top?, t) && t.Br? && t.r.Br? && LeftRotated(h, h', c, t)
    requires !c.Top? ==> c.id !in Ids(t)
    ensures Rep(h'.m, h.s, PId(c), c.Top?, RotL(t))
  {
    LeftRotatedParts(h, h', c, t);
    assert Rep(h.m, h.s, t.id, false, t.r) && t.r.id in Ids(t.r);
  }

  lemma RotateLeftAt(h: Heap, c: Ctx, t: Tree)
    requires At(h, c, t) && t.Br? && t.r.Br?
    ensures t.id in h.m && h.m[t.id].right == t.r.id && t.r.id in h.m && h.m[t.r.id].left == RootId(h.s, t.r.l)
    ensures CanRotate(h, t.id, t.r.id, RootId(h.s, t.r.l))
    ensures At(RotateLeft(h, t.id), c, RotL(t)) && RotateLeft(h, t.id).m[h.s] == h.m[h.s]
  {
    RotateLeftReady(h, c, t);
    RotateLeftLinks(h, c, t);
    var h' := RotateLeft(h, t.id);
    if !c.Top? { assert c.id in CtxIds(c); }
    LeftRotatedFocus(h, h', c, t);
    ParentOf(h, c, t);
    assert t.r.id in Ids(t) && (t.r.l.Br? ==> t.r.l.id in Ids(t));
    Rehang(h.m, h'.m, h.s, h.root, h'.root, t.id, t.r.id, c);
  }

  lemma RotateRightReady(h: Heap, c: Ctx, t: Tree)
    requires At(h, c, t) && t.Br? && t.l.Br?
    ensures t.id in h.m && h.m[t.id].left == t.l.id && t.l.id in h.m && h.m[t.l.id].right == RootId(h.s, t.l.r)
    ensures CanRotate(h, t.id, t.l.id, RootId(h.s, t.l.r))
  {
    ParentOf(h, c, t);
    assert Rep(h.m, h.s, t.id, false, t.l);
    assert t.l.id in Ids(t.l);
    if t.l.r.Br? {
      assert Rep(h.m, h.s, t.l.id, false, t.l.r);
      assert t.l.r.id in Ids(t.l.r) && t.l.r.id in Ids(t.l);
    }
  }

  /** The links after a right rotation of t in context c. */
  ghost predicate RightRotated(h: Heap, h': Heap, c: Ctx, t: Tree)
    requires t.Br? && t.l.Br?
  {
    && h'.s == h.s && h'.root == (if c.Top? then t.l.id else h.root) && h'.m.Keys == h.m.Keys
    && t.id in h.m && h'.m[t.id] == h.m[t.id].(left := RootId(h.s, t.l.r), parent := t.l.id)
    && t.l.id in h.m && h'.m[t.l.id] == h.m[t.l.id].(right := t.id, parent := h.m[t.id].parent)
    && (t.l.r.Br? ==> t.l.r.id in h.m && h'.m[t.l.r.id] == h.m[t.l.r.id].(parent := t.id))
    && (!c.Top? ==> c.id in h.m && h'.m[c.id] == if c.InR? then h.m[c.id].(right := t.l.id)
         else h.m[c.id].(left := t.l.id))
    && (forall i :: i in h.m && i != t.id && i != t.l.id && (t.l.r.Br? ==> i != t.l.r.id) && (c.Top? || i != c.id) ==>
         h'.m[i] == h.m[i])
  }

  lemma RotateRightLinks(h: Heap, c: Ctx, t: Tree)
    requires At(h, c, t) && t.Br? && t.l.Br?
    requires t.id in h.m && h.m[t.id].left == t.l.id && t.l.id in h.m && h.m[t.l.id].right == RootId(h.s, t.l.r)
    requires CanRotate(h, t.id, t.l.id, RootId(h.s, t.l.r))
    ensures RightRotated(h, RotateRight(h, t.id), c, t)
  {
    ParentOf(h, c, t);
    assert t.l.id in Ids(t);
    if t.l.r.Br? { assert t.l.r.id in Ids(t.l.r) && t.l.r.id in Ids(t); }
    if !c.Top? { assert c.id in CtxIds(c); }
  }

  lemma RightRotatedParts(h: Heap, h': Heap, c: Ctx, t: Tree)
    requires Rep(h.m, h.s, PId(c), c.Top?, t) && t.Br? && t.l.Br? && RightRotated(h, h', c, t)
    requires !c.Top? ==> c.id !in Ids(t)
    ensures Rep(h'.m, h.s, t.l.id, false, t.l.l) && Rep(h'.m, h.s, t.l.id, false, Br(t.l.r, t.id, t.key, t.red, t.r))
  {
    assert Rep(h.m, h.s, t.id, false, t.r) && Rep(h.m, h.s, t.id, false, t.l);
    var a, b, e := t.r, t.l.r, t.l.l;
    assert Rep(h.m, h.s, t.l.id, false, b) && Rep(h.m, h.s, t.l.id, false, e);
    assert t.l.id in Ids(t.l) && Ids(b) <= Ids(t.l) && Ids(e) <= Ids(t.l);
    if b.Br? { assert b.id in Ids(b); }
    RepFrame(h.m, h'.m, h.s, t.id, false, a);
    RepFrame(h.m, h'.m, h.s, t.l.id, false, e);
    Reparent(h.m, h'.m, h.s, t.l.id, t.id, b);
  }

  lemma RightRotatedFocus(h: Heap, h': Heap, c: Ctx, t: Tree)
    requires Rep(h.m, h.s, PId(c), c.Top?, t) && t.Br? && t.l.Br? && RightRotated(h, h', c, t)
    requires !c.Top? ==> c.id !in Ids(t)
    ensures Rep(h'.m, h.s, PId(c), c.Top?, RotR(t))
  {
    RightRotatedParts(h, h', c, t);
    assert Rep(h.m, h.s, t.id, false, t.l) && t.l.id in Ids(t.l);
  }

  lemma RotateRightAt(h: Heap, c: Ctx, t: Tree)
    requires At(h, c, t) && t.Br? && t.l.Br?
    ensures t.id in h.m && h.m[t.id].left == t.l.id && t.l.id in h.m && h.m[t.l.id].right == RootId(h.s, t.l.r)
    ensures CanRotate(h, t.id, t.l.id, RootId(h.s, t.l.r))
    ensures At(RotateRight(h, t.id), c, RotR(t)) && RotateRight(h, t.id).m[h.s] == h.m[h.s]
  {
    RotateRightReady(h, c, t);
    RotateRightLinks(h, c, t);
    var h' := RotateRight(h, t.id);
    if !c.Top? { assert c.id in CtxIds(c); }
    RightRotatedFocus(h, h', c, t);
    ParentOf(h, c, t);
    assert t.l.id in Ids(t) && (t.l.r.Br? ==> t.l.r.id in Ids(t));
    Rehang(h.m, h'.m, h.s, h.root, h'.root, t.id, t.l.id, c);
  }

  // ----- moving the view and recolouring -----

  /** The subtree one level up. */
  function Fill(c: Ctx, t: Tree): Tree
    requires !c.Top?
  {
    match c
    case InL(_, id, key, red, r) => Br(t, id, key, red, r)
    case InR(_, l, id, key, red) => Br(l, id, key, red, t)
  }

  lemma FocusUp(h: Heap, c: Ctx, t: Tree)
    requires At(h, c, t) && !c.Top?
    ensures At(h, c.up, Fill(c, t))
  {
  }

  lemma FocusLeft(h: Heap, c: Ctx, t: Tree)
    requires At(h, c, t) && t.Br?
    ensures At(h, InL(c, t.id, t.key, t.red, t.r), t.l)
  {
  }

  lemma FocusRight(h: Heap, c: Ctx, t: Tree)
    requires At(h, c, t) && t.Br?
    ensures At(h, InR(c, t.l, t.id, t.key, t.red), t.r)
  {
  }

  /** ngx_rbt_red, ngx_rbt_black, ngx_rbt_copy_color */
  function SetRed(h: Heap, id: Id, red: bool): (h': Heap)
    ensures h'.m.Keys == h.m.Keys
    requires id in h.m
  {
    h.(m := h.m[id := h.m[id].(red := red)])
  }

  lemma RecolorAt(h: Heap, c: Ctx, t: Tree, red: bool)
    requires At(h, c, t) && t.Br?
    ensures t.id in h.m && At(SetRed(h, t.id, red), c, t.(red := red))
  {
    var h' := SetRed(h, t.id, red);
    ParentOf(h, c, t);
    RepFrame(h.m, h'.m, h.s, t.id, false, t.l);
    RepFrame(h.m, h'.m, h.s, t.id, false, t.r);
    CtxFrame(h.m, h'.m, h.s, h.root, t.id, c);
  }

  /** Blackening the sentinel changes nothing. */
  lemma BlackenAt(h: Heap, c: Ctx, t: Tree)
    requires At(h, c, t)
    ensures RootId(h.s, t) in h.m && At(SetRed(h, RootId(h.s, t), false), c, Blacken(t))
  {
    if t.Br? {
      RecolorAt(h, c, t, false);
    } else {
      assert h.m[h.s := h.m[h.s].(red := false)] == h.m;
    }
  }

  /** The colour tests of the source; the sentinel is black. */
  lemma ColourOf(h: Heap, c: Ctx, t: Tree)
    requires At(h, c, t)
    ensures RootId(h.s, t) in h.m && h.m[RootId(h.s, t)].red == IsRed(t)
  {
  }

  /** At, with the sentinel's parent set when the subtree is empty: line 211, 216 or 219. */
  ghost predicate FixAt(h: Heap, c: Ctx, t: Tree) {
    At(h, c, t) && (t.Leaf? && !c.Top? ==> h.m[h.s].parent == c.id)
  }
}
