/**
 Red-black trees as values: shapes with colours, the path from a node up to the root,
 and what insertion and deletion fixups (src/core/ngx_rbtree.c) do to them.
 */
module RbShape {

  type Id = nat

  /** num is the word the source compares; name breaks ties in the open file cache. */
  datatype Key = Key(num: nat, name: seq<nat>)

  datatype Tree = Leaf | Br(l: Tree, id: Id, key: Key, red: bool, r: Tree)

  /** The way from a subtree up to the root; InL: the subtree is the left child. */
  datatype Ctx = Top | InL(up: Ctx, id: Id, key: Key, red: bool, r: Tree) | InR(up: Ctx, l: Tree, id: Id, key: Key,
                           red: bool)

  function Plug(c: Ctx, t: Tree): Tree {
    match c
    case Top => t
    case InL(up, id, key, red, r) => Plug(up, Br(t, id, key, red, r))
    case InR(up, l, id, key, red) => Plug(up, Br(l, id, key, red, t))
  }

  function Ids(t: Tree): set<Id> {
    if t.Leaf? then {} else Ids(t.l) + {t.id} + Ids(t.r)
  }

  function CtxIds(c: Ctx): set<Id> {
    match c
    case Top => {}
    case InL(up, id, _, _, r) => CtxIds(up) + {id} + Ids(r)
    case InR(up, l, id, _, _) => CtxIds(up) + {id} + Ids(l)
  }

  /** Nodes in key order: identity and key. */
  function Inorder(t: Tree): seq<(Id, Key)> {
    if t.Leaf? then [] else Inorder(t.l) + [(t.id, t.key)] + Inorder(t.r)
  }

  function Before(c: Ctx): seq<(Id, Key)> {
    match c
    case Top => []
    case InL(up, _, _, _, _) => Before(up)
    case InR(up, l, id, key, _) => Before(up) + Inorder(l) + [(id, key)]
  }

  function After(c: Ctx): seq<(Id, Key)> {
    match c
    case Top => []
    case InL(up, id, key, _, r) => [(id, key)] + Inorder(r) + After(up)
    case InR(up, _, _, _, _) => After(up)
  }

  lemma {:induction false} PlugInorder(c: Ctx, t: Tree)
    ensures Inorder(Plug(c, t)) == Before(c) + Inorder(t) + After(c)
    decreases c
  {
    match c
    case Top =>
    case InL(up, id, key, red, r) => PlugInorder(up, Br(t, id, key, red, r));
    case InR(up, l, id, key, red) => PlugInorder(up, Br(l, id, key, red, t));
  }

  lemma {:induction false} PlugIds(c: Ctx, t: Tree)
    ensures Ids(Plug(c, t)) == CtxIds(c) + Ids(t)
    decreases c
  {
    match c
    case Top =>
    case InL(up, id, key, red, r) => PlugIds(up, Br(t, id, key, red, r));
    case InR(up, l, id, key, red) => PlugIds(up, Br(l, id, key, red, t));
  }

  // ----- the red-black properties -----

  predicate IsRed(t: Tree) { t.Br? && t.red }

  /** No red node has a red child. */
  predicate NoRedRed(t: Tree) {
    t.Br? ==> (t.red ==> !IsRed(t.l) && !IsRed(t.r)) && NoRedRed(t.l) && NoRedRed(t.r)
  }

  /** Every path down to a leaf has n black nodes. */
  predicate HasBH(t: Tree, n: nat) {
    match t
    case Leaf => n == 0
    case Br(l, _, _, red, r) =>
      if red then HasBH(l, n) && HasBH(r, n) else n > 0 && HasBH(l, n - 1) && HasBH(r, n - 1)
  }

  ghost predicate RedBlack(t: Tree) {
    !IsRed(t) && NoRedRed(t) && exists n: nat :: HasBH(t, n)
  }

  predicate TopRed(c: Ctx) { !c.Top? && c.red }

  /** A subtree of black height n fits the context. */
  predicate CtxBH(c: Ctx, n: nat) {
    match c
    case Top => true
    case InL(up, _, _, red, r) => HasBH(r, n) && CtxBH(up, if red then n else n + 1)
    case InR(up, l, _, _, red) => HasBH(l, n) && CtxBH(up, if red then n else n + 1)
  }

  /** No red-red pair inside the context, and the root is black. */
  predicate CtxOk(c: Ctx) {
    match c
    case Top => true
    case InL(up, _, _, red, r) => NoRedRed(r) && (red ==> !IsRed(r) && !TopRed(up) && !up.Top?) && CtxOk(up)
    case InR(up, l, _, _, red) => NoRedRed(l) && (red ==> !IsRed(l) && !TopRed(up) && !up.Top?) && CtxOk(up)
  }

  /** A good subtree in a good context makes a red-black tree. */
  lemma {:induction false} PlugGood(c: Ctx, t: Tree, n: nat)
    requires CtxBH(c, n) && CtxOk(c) && HasBH(t, n) && NoRedRed(t)
    requires IsRed(t) ==> !TopRed(c) && !c.Top?
    ensures RedBlack(Plug(c, t))
    decreases c
  {
    match c
    case Top =>
    case InL(up, id, key, red, r) => PlugGood(up, Br(t, id, key, red, r), if red then n else n + 1);
    case InR(up, l, id, key, red) => PlugGood(up, Br(l, id, key, red, t), if red then n else n + 1);
  }

  /** Descending into a red-black tree. */
  lemma {:induction false} UnplugGood(c: Ctx, t: Tree)
    requires RedBlack(Plug(c, t))
    ensures CtxOk(c) && NoRedRed(t) && (IsRed(t) ==> !TopRed(c) && !c.Top?)
    ensures exists n: nat :: CtxBH(c, n) && HasBH(t, n)
    decreases c
  {
    match c
    case Top =>
      var n: nat :| HasBH(t, n);
      assert CtxBH(c, n) && HasBH(t, n);
    case InL(up, id, key, red, r) =>
      var b := Br(t, id, key, red, r);
      UnplugGood(up, b);
      var n: nat :| CtxBH(up, n) && HasBH(b, n);
      var k := if red then n else n - 1;
      assert CtxBH(c, k) && HasBH(t, k);
    case InR(up, l, id, key, red) =>
      var b := Br(l, id, key, red, t);
      UnplugGood(up, b);
      var n: nat :| CtxBH(up, n) && HasBH(b, n);
      var k := if red then n else n - 1;
      assert CtxBH(c, k) && HasBH(t, k);
  }

  function Blacken(t: Tree): Tree { if t.Br? then t.(red := false) else t }

  lemma {:induction false} BHUnique(t: Tree, m: nat, n: nat)
    requires HasBH(t, m) && HasBH(t, n)
    ensures m == n
    decreases t
  {
    if t.Br? {
      if t.red { BHUnique(t.l, m, n); } else { BHUnique(t.l, m - 1, n - 1); }
    }
  }

  // ----- insertion fixup -----

  /** A red subtree whose only fault may be a red parent. */
  ghost predicate InsertInv(c: Ctx, t: Tree) {
    IsRed(t) && NoRedRed(t) && CtxOk(c) && exists n: nat :: CtxBH(c, n) && HasBH(t, n)
  }

  function Depth(c: Ctx): nat { if c.Top? then 0 else 1 + Depth(c.up) }

  /** With a red parent there is a black grandparent. */
  lemma GrandParent(c: Ctx)
    requires CtxOk(c) && TopRed(c)
    ensures !c.up.Top? && !c.up.red
  {
  }

  /** The loop ends: the parent is black, or the subtree is the whole tree and turns black. */
  lemma InsertDone(c: Ctx, t: Tree)
    requires InsertInv(c, t) && !TopRed(c)
    ensures !c.Top? ==> RedBlack(Plug(c, t))
    ensures c.Top? ==> RedBlack(Blacken(t)) && Inorder(Blacken(t)) == Inorder(t)
  {
    var n: nat :| CtxBH(c, n) && HasBH(t, n);
    if c.Top? {
      assert HasBH(Blacken(t), n + 1);
    } else {
      PlugGood(c, t, n);
    }
  }

  lemma BlackenBH(u: Tree, n: nat)
    requires IsRed(u) && HasBH(u, n) && NoRedRed(u)
    ensures HasBH(Blacken(u), n + 1) && NoRedRed(Blacken(u)) && Inorder(Blacken(u)) == Inorder(u)
  {
  }

  /** Lines 54-58 and 74-78: parent and uncle turn black, the grandparent red. */
  lemma InsertRecolor(c: Ctx, t: Tree, p: Tree, g: Tree)
    requires InsertInv(c, t) && TopRed(c) && !c.up.Top?
    requires c.InL? ==> p == Br(t, c.id, c.key, false, c.r)
    requires c.InR? ==> p == Br(c.l, c.id, c.key, false, t)
    requires c.up.InL? ==> IsRed(c.up.r) && g == Br(p, c.up.id, c.up.key, true, Blacken(c.up.r))
    requires c.up.InR? ==> IsRed(c.up.l) && g == Br(Blacken(c.up.l), c.up.id, c.up.key, true, p)
    ensures InsertInv(c.up.up, g) && Inorder(Plug(c.up.up, g)) == Inorder(Plug(c, t))
  {
    GrandParent(c);
    var n: nat :| CtxBH(c, n) && HasBH(t, n);
    assert HasBH(p, n + 1) && NoRedRed(p);
    assert CtxBH(c.up, n) && CtxOk(c.up);
    BlackenBH(if c.up.InL? then c.up.r else c.up.l, n);
    assert CtxBH(c.up.up, n + 1) && CtxOk(c.up.up) && HasBH(g, n + 1);
    PlugInorder(c.up.up, g);
    var p0 := p.(red := true);
    var g0 := if c.up.InL? then Br(p0, c.up.id, c.up.key, false, c.up.r) else Br(c.up.l, c.up.id, c.up.key, false, p0);
    PlugInorder(c.up.up, g0);
    assert Inorder(p) == Inorder(p0);
    assert Inorder(g) == Inorder(g0);
  }

  /** Equal contents in equal places. */
  lemma SameInorder(c: Ctx, t: Tree, t': Tree)
    requires Inorder(t) == Inorder(t')
    ensures Inorder(Plug(c, t)) == Inorder(Plug(c, t'))
  {
    PlugInorder(c, t);
    PlugInorder(c, t');
  }

  lemma Regroup<T>(a: seq<T>, b: seq<T>, x: T, y: T, c: seq<T>)
    ensures (a + [x] + b) + [y] + c == a + [x] + (b + [y] + c)
  {
  }

  /** Lines 66-68: an outer left child with a black uncle; its parent takes the grandparent's place. */
  lemma InsertOuterLeft(c: Ctx, t: Tree, c': Ctx)
    requires InsertInv(c, t) && TopRed(c) && c.InL? && c.up.InL? && !IsRed(c.up.r)
    requires c' == InL(c.up.up, c.id, c.key, false, Br(c.r, c.up.id, c.up.key, true, c.up.r))
    ensures InsertInv(c', t) && !TopRed(c') && Inorder(Plug(c', t)) == Inorder(Plug(c, t))
  {
    var n: nat :| CtxBH(c, n) && HasBH(t, n);
    assert CtxBH(c.up, n) && CtxOk(c.up);
    assert CtxBH(c', n) && HasBH(t, n);
    Regroup(Inorder(t), Inorder(c.r), (c.id, c.key), (c.up.id, c.up.key), Inorder(c.up.r));
    SameInorder(c.up.up, Br(Br(t, c.id, c.key, true, c.r), c.up.id, c.up.key, c.up.red, c.up.r),
        Br(t, c.id, c.key, false, c'.r));
  }

  /** Lines 86-88, the mirror image. */
  lemma InsertOuterRight(c: Ctx, t: Tree, c': Ctx)
    requires InsertInv(c, t) && TopRed(c) && c.InR? && c.up.InR? && !IsRed(c.up.l)
    requires c' == InR(c.up.up, Br(c.up.l, c.up.id, c.up.key, true, c.l), c.id, c.key, false)
    ensures InsertInv(c', t) && !TopRed(c') && Inorder(Plug(c', t)) == Inorder(Plug(c, t))
  {
    var n: nat :| CtxBH(c, n) && HasBH(t, n);
    assert CtxBH(c.up, n) && CtxOk(c.up);
    assert CtxBH(c', n) && HasBH(t, n);
    Regroup(Inorder(c.up.l), Inorder(c.l), (c.up.id, c.up.key), (c.id, c.key), Inorder(t));
    SameInorder(c.up.up, Br(c.up.l, c.up.id, c.up.key, c.up.red, Br(c.l, c.id, c.key, true, t)),
        Br(c'.l, c.id, c.key, false, t));
  }

  /** Lines 61-68: an inner child with a black uncle takes the grandparent's place. */
  lemma InsertInnerLeft(c: Ctx, t: Tree, c': Ctx, t': Tree)
    requires InsertInv(c, t) && TopRed(c) && c.InR? && c.up.InL? && !IsRed(c.up.r)
    requires t' == Br(c.l, c.id, c.key, true, t.l)
    requires c' == InL(c.up.up, t.id, t.key, false, Br(t.r, c.up.id, c.up.key, true, c.up.r))
    ensures InsertInv(c', t') && !TopRed(c') && Inorder(Plug(c', t')) == Inorder(Plug(c, t))
  {
    var n: nat :| CtxBH(c, n) && HasBH(t, n);
    assert CtxBH(c.up, n) && CtxOk(c.up);
    assert CtxBH(c', n) && HasBH(t', n);
    var p := Br(c.l, c.id, c.key, true, t);
    Regroup(Inorder(c.l), Inorder(t.l), (c.id, c.key), (t.id, t.key), Inorder(t.r));
    assert Inorder(p) == Inorder(t') + [(t.id, t.key)] + Inorder(t.r);
    Regroup(Inorder(t'), Inorder(t.r), (t.id, t.key), (c.up.id, c.up.key), Inorder(c.up.r));
    SameInorder(c.up.up, Br(p, c.up.id, c.up.key, c.up.red, c.up.r), Br(t', t.id, t.key, false, c'.r));
  }

  /** Lines 81-88, the mirror image. */
  lemma InsertInnerRight(c: Ctx, t: Tree, c': Ctx, t': Tree)
    requires InsertInv(c, t) && TopRed(c) && c.InL? && c.up.InR? && !IsRed(c.up.l)
    requires t' == Br(t.r, c.id, c.key, true, c.r)
    requires c' == InR(c.up.up, Br(c.up.l, c.up.id, c.up.key, true, t.l), t.id, t.key, false)
    ensures InsertInv(c', t') && !TopRed(c') && Inorder(Plug(c', t')) == Inorder(Plug(c, t))
  {
    var n: nat :| CtxBH(c, n) && HasBH(t, n);
    assert CtxBH(c.up, n) && CtxOk(c.up);
    assert CtxBH(c', n) && HasBH(t', n);
    var p := Br(t, c.id, c.key, true, c.r);
    Regroup(Inorder(t.l), Inorder(t.r), (t.id, t.key), (c.id, c.key), Inorder(c.r));
    assert Inorder(p) == Inorder(t.l) + [(t.id, t.key)] + Inorder(t');
    Regroup(Inorder(c.up.l), Inorder(t.l), (c.up.id, c.up.key), (t.id, t.key), Inorder(t'));
    SameInorder(c.up.up, Br(c.up.l, c.up.id, c.up.key, c.up.red, p), Br(c'.l, t.id, t.key, false, t'));
  }
}
