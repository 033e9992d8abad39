/**
 The doubly linked lists of the slab allocator (src/core/ngx_slab.c): page descriptors
 linked through `next` and `prev`, the two low bits of `prev` holding the page type.
 Pointers to descriptors are references; the low bits are the separate field `tag`.
 */
module SlabList {

  /** NGX_SLAB_PAGE, NGX_SLAB_BIG, NGX_SLAB_EXACT, NGX_SLAB_SMALL */
  datatype Tag = PageTag | BigTag | ExactTag | SmallTag

  /** NULL, &pool->free, &slots[shift - min_shift], &pool->pages[i] */
  datatype Ref = Null | FreeList | Slot(shift: nat) | Page(i: nat)

  datatype Desc = Desc(slab: nat, next: Ref, prev: Ref, tag: Tag)

  type Store = map<Ref, Desc>

  predicate Distinct(l: seq<nat>) {
    forall i, j :: 0 <= i < j < |l| ==> l[i] != l[j]
  }

  /** The k-th node of the circular list l with head h; position -1 and |l| are the head. */
  function NodeAt(h: Ref, l: seq<nat>, k: int): Ref {
    if 0 <= k < |l| then Page(l[k]) else h
  }

  predicate IsNode(d: Store, h: Ref, l: seq<nat>, t: Tag, k: nat)
    requires k < |l|
  {
    Page(l[k]) in d && d[Page(l[k])].next == NodeAt(h, l, k + 1) && d[Page(l[k])].prev == NodeAt(h, l, k - 1)
    && d[Page(l[k])].tag == t
  }

  /** The list with head h is l.  The head's own `prev` is scratch and never read. */
  predicate ListAt(d: Store, h: Ref, l: seq<nat>, t: Tag) {
    && (h.FreeList? || h.Slot?) && h in d
    && Distinct(l)
    && d[h].next == NodeAt(h, l, 0)
    && forall k :: 0 <= k < |l| ==> IsNode(d, h, l, t, k)
  }

  function Without(l: seq<nat>, k: nat): seq<nat>
    requires k < |l|
  {
    l[..k] + l[k+1..]
  }

  /** References outside the list headed by h. */
  predicate Outside(r: Ref, h: Ref, l: seq<nat>) {
    r != h && !(r.Page? && r.i in l)
  }

  predicate SameLinks(d: Store, d': Store, r: Ref) {
    r in d && r in d' && d'[r].next == d[r].next && d'[r].prev == d[r].prev && d'[r].tag == d[r].tag
  }

  /** r keeps its length and type and stays on some list. */
  predicate StillListed(d: Store, d': Store, r: Ref) {
    r in d && r in d' && d'[r].slab == d[r].slab && d'[r].tag == d[r].tag && d'[r].next != Null
  }

  /** Lists only depend on the links of their own nodes. */
  lemma ListFrame(d: Store, d': Store, h: Ref, l: seq<nat>, t: Tag)
    requires ListAt(d, h, l, t)
    requires h in d' && d'[h].next == d[h].next
    requires forall x :: x in l ==> SameLinks(d, d', Page(x))
    ensures ListAt(d', h, l, t)
  {
    forall k | 0 <= k < |l| ensures IsNode(d', h, l, t, k) {
      assert IsNode(d, h, l, t, k);
      assert l[k] in l;
    }
  }

  /** Page x leaves its list: its neighbours are linked to each other. */
  function Unlink(d: Store, x: nat): (d': Store)
    requires Page(x) in d && d[Page(x)].prev in d && d[Page(x)].next in d
    ensures d'.Keys == d.Keys
    ensures forall r :: r in d ==> d'[r].slab == d[r].slab
  {
    var p := d[Page(x)];
    var d1 := d[p.prev := d[p.prev].(next := p.next)];
    d1[p.next := d1[p.next].(prev := p.prev, tag := p.tag)]
  }

  lemma UnlinkDefined(d: Store, h: Ref, l: seq<nat>, t: Tag, k: nat)
    requires ListAt(d, h, l, t) && k < |l|
    ensures Page(l[k]) in d && d[Page(l[k])].prev in d && d[Page(l[k])].next in d
    ensures d[Page(l[k])].prev == NodeAt(h, l, k - 1) && d[Page(l[k])].next == NodeAt(h, l, k + 1) &&
            d[Page(l[k])].tag == t
  {
    assert IsNode(d, h, l, t, k);
    if k > 0 { assert IsNode(d, h, l, t, k - 1); }
    if k + 1 < |l| { assert IsNode(d, h, l, t, k + 1); }
  }

  /** What happens to the descriptor r when a listed page is unlinked. */
  lemma UnlinkAt(d: Store, h: Ref, l: seq<nat>, t: Tag, k: nat, r: Ref)
    requires ListAt(d, h, l, t) && k < |l| && r in d
    requires Page(l[k]) in d && d[Page(l[k])].prev in d && d[Page(l[k])].next in d
    ensures Outside(r, h, l) || r == Page(l[k]) ==> Unlink(d, l[k])[r] == d[r]
    ensures r != h && !Outside(r, h, l) ==> StillListed(d, Unlink(d, l[k]), r)
  {
    UnlinkDefined(d, h, l, t, k);
    if k > 0 { assert IsNode(d, h, l, t, k - 1); }
    if k + 1 < |l| { assert IsNode(d, h, l, t, k + 1); }
    if r.Page? && r.i in l {
      var j :| 0 <= j < |l| && l[j] == r.i;
      assert IsNode(d, h, l, t, j);
    }
  }

  lemma UnlinkOk(d: Store, h: Ref, l: seq<nat>, t: Tag, k: nat)
    requires ListAt(d, h, l, t) && k < |l|
    requires Page(l[k]) in d && d[Page(l[k])].prev in d && d[Page(l[k])].next in d
    ensures ListAt(Unlink(d, l[k]), h, Without(l, k), t)
  {
    UnlinkDefined(d, h, l, t, k);
    var d' := Unlink(d, l[k]);
    var l' := Without(l, k);
    forall j | 0 <= j < |l'| ensures IsNode(d', h, l', t, j) {
      var o := if j < k then j else j + 1;
      assert l'[j] == l[o];
      assert IsNode(d, h, l, t, o);
      assert NodeAt(h, l', j + 1) == if j + 1 == k then NodeAt(h, l, k + 1) else NodeAt(h, l, o + 1);
      assert NodeAt(h, l', j - 1) == if j == k then NodeAt(h, l, k - 1) else NodeAt(h, l, o - 1);
    }
    assert NodeAt(h, l', 0) == if k == 0 then NodeAt(h, l, 1) else NodeAt(h, l, 0);
  }

  /** Page x becomes the first of the list of head h; links back to it and from it carry the tag t. */
  function PushFront(d: Store, h: Ref, x: nat, t: Tag): (d': Store)
    requires h in d && Page(x) in d && d[h].next in d
    ensures d'.Keys == d.Keys
    ensures forall r :: r in d ==> d'[r].slab == d[r].slab
  {
    var first := d[h].next;
    var d1 := d[Page(x) := d[Page(x)].(next := first, prev := h, tag := t)];
    var d2 := d1[h := d1[h].(next := Page(x))];
    d2[first := d2[first].(prev := Page(x), tag := t)]
  }

  lemma PushDefined(d: Store, h: Ref, l: seq<nat>, t: Tag)
    requires ListAt(d, h, l, t)
    ensures d[h].next in d
  {
    if l != [] { assert IsNode(d, h, l, t, 0); }
  }

  lemma PushAt(d: Store, h: Ref, l: seq<nat>, t: Tag, x: nat, r: Ref)
    requires ListAt(d, h, l, t) && Page(x) in d && x !in l && d[h].next in d && r in d
    ensures Outside(r, h, l) && r != Page(x) ==> PushFront(d, h, x, t)[r] == d[r]
    ensures r != h && !Outside(r, h, l) ==> StillListed(d, PushFront(d, h, x, t), r)
    ensures PushFront(d, h, x, t)[Page(x)].next != Null && PushFront(d, h, x, t)[Page(x)].tag == t
  {
    if l != [] { assert IsNode(d, h, l, t, 0); }
    if r.Page? && r.i in l {
      var j :| 0 <= j < |l| && l[j] == r.i;
      assert IsNode(d, h, l, t, j);
    }
  }

  lemma PushOk(d: Store, h: Ref, l: seq<nat>, t: Tag, x: nat)
    requires ListAt(d, h, l, t) && Page(x) in d && x !in l && d[h].next in d
    ensures ListAt(PushFront(d, h, x, t), h, [x] + l, t)
  {
    var d' := PushFront(d, h, x, t);
    var l' := [x] + l;
    forall j | 0 <= j < |l'| ensures IsNode(d', h, l', t, j) {
      if j > 0 {
        assert IsNode(d, h, l, t, j - 1);
        assert NodeAt(h, l', j + 1) == NodeAt(h, l, j);
        assert j > 1 ==> NodeAt(h, l', j - 1) == NodeAt(h, l, j - 2);
        assert l[j-1] in l;
      } else {
        assert NodeAt(h, l', 1) == NodeAt(h, l, 0);
      }
    }
  }

  /**
   The new descriptor y takes the place of x in its list, as when a free run is split: it gets
   the links of x, and the neighbours of x are linked to y.
   */
  function Substitute(d: Store, x: nat, y: nat, slab: nat): (d': Store)
    requires Page(x) in d && Page(y) in d && d[Page(x)].prev in d && d[Page(x)].next in d
    ensures d'.Keys == d.Keys
    ensures forall r :: r in d && r != Page(y) ==> d'[r].slab == d[r].slab
  {
    var p := d[Page(x)];
    var d1 := d[Page(y) := Desc(slab, p.next, p.prev, p.tag)];
    var d2 := d1[p.prev := d1[p.prev].(next := Page(y))];
    d2[p.next := d2[p.next].(prev := Page(y), tag := PageTag)]
  }

  lemma SubstituteAt(d: Store, h: Ref, l: seq<nat>, k: nat, y: nat, slab: nat, r: Ref)
    requires ListAt(d, h, l, PageTag) && k < |l| && Page(y) in d && y !in l && r in d
    requires Page(l[k]) in d && d[Page(l[k])].prev in d && d[Page(l[k])].next in d
    ensures Outside(r, h, l) && r != Page(y) ==> Substitute(d, l[k], y, slab)[r] == d[r]
    ensures r != h && !Outside(r, h, l) ==> StillListed(d, Substitute(d, l[k], y, slab), r)
    ensures var e := Substitute(d, l[k], y, slab)[Page(y)]; e.slab == slab && e.next != Null && e.tag == PageTag
  {
    UnlinkDefined(d, h, l, PageTag, k);
    if k > 0 { assert IsNode(d, h, l, PageTag, k - 1); }
    if k + 1 < |l| { assert IsNode(d, h, l, PageTag, k + 1); }
    if r.Page? && r.i in l {
      var j :| 0 <= j < |l| && l[j] == r.i;
      assert IsNode(d, h, l, PageTag, j);
    }
  }

  lemma SubstituteOk(d: Store, h: Ref, l: seq<nat>, k: nat, y: nat, slab: nat)
    requires ListAt(d, h, l, PageTag) && k < |l| && Page(y) in d && y !in l
    requires Page(l[k]) in d && d[Page(l[k])].prev in d && d[Page(l[k])].next in d
    ensures ListAt(Substitute(d, l[k], y, slab), h, l[k := y], PageTag)
  {
    UnlinkDefined(d, h, l, PageTag, k);
    var d' := Substitute(d, l[k], y, slab);
    var l' := l[k := y];
    forall j | 0 <= j < |l'| ensures IsNode(d', h, l', PageTag, j) {
      assert IsNode(d, h, l, PageTag, j);
      assert l[j] in l;
      assert j + 1 != k ==> NodeAt(h, l', j + 1) == NodeAt(h, l, j + 1);
      assert j - 1 != k ==> NodeAt(h, l', j - 1) == NodeAt(h, l, j - 1);
    }
  }

  /**
   Lines 631-639, a free run x is split before y, and z is its last page: z is linked back to
   y, the new head, and y takes the place of x in the free list.
   */
  function SplitAt(d: Store, x: nat, y: nat, z: nat, slab: nat): (d': Store)
    requires Page(x) in d && Page(y) in d && Page(z) in d && z != x && d[Page(x)].prev in d && d[Page(x)].next in d
    ensures d'.Keys == d.Keys
  {
    Substitute(d[Page(z) := d[Page(z)].(prev := Page(y), tag := PageTag)], x, y, slab)
  }

  lemma SplitDefined(d: Store, l: seq<nat>, k: nat, y: nat, z: nat) returns (d1: Store)
    requires ListAt(d, FreeList, l, PageTag) && k < |l| && Page(y) in d && Page(z) in d && y !in l && z !in l
    ensures Page(l[k]) in d && z != l[k] && d[Page(l[k])].prev in d && d[Page(l[k])].next in d
    ensures d1 == d[Page(z) := d[Page(z)].(prev := Page(y), tag := PageTag)]
    ensures ListAt(d1, FreeList, l, PageTag) && d1[Page(l[k])].prev in d1 && d1[Page(l[k])].next in d1
  {
    UnlinkDefined(d, FreeList, l, PageTag, k);
    assert l[k] in l;
    d1 := d[Page(z) := d[Page(z)].(prev := Page(y), tag := PageTag)];
    forall x | x in l ensures SameLinks(d, d1, Page(x)) {
      var j :| 0 <= j < |l| && l[j] == x;
      assert IsNode(d, FreeList, l, PageTag, j);
    }
    ListFrame(d, d1, FreeList, l, PageTag);
    UnlinkDefined(d1, FreeList, l, PageTag, k);
  }

  /** How the descriptor of page i changes when the free run x is split before y (z its last page). */
  predicate SplitFacts(d: Store, d': Store, l: seq<nat>, y: nat, z: nat, slab: nat, i: nat) {
    && Page(i) in d && Page(i) in d'
    && (i !in l && i != y && i != z ==> d'[Page(i)] == d[Page(i)])
    && (i in l ==> StillListed(d, d', Page(i)))
    && (i == y ==> d'[Page(i)].slab == slab && d'[Page(i)].next != Null && d'[Page(i)].tag == PageTag)
    && (i == z && y != z ==> d'[Page(i)] == d[Page(i)].(prev := Page(y), tag := PageTag))
  }

  lemma SplitPoint(d: Store, l: seq<nat>, k: nat, y: nat, z: nat, slab: nat, i: nat)
    requires ListAt(d, FreeList, l, PageTag) && k < |l| && Page(y) in d && Page(z) in d && y !in l && z !in l &&
             Page(i) in d
    requires Page(l[k]) in d && z != l[k] && d[Page(l[k])].prev in d && d[Page(l[k])].next in d
    ensures SplitFacts(d, SplitAt(d, l[k], y, z, slab), l, y, z, slab, i)
  {
    SplitAtPoint(d, l, k, y, z, slab, Page(i));
  }

  lemma SplitAtPoint(d: Store, l: seq<nat>, k: nat, y: nat, z: nat, slab: nat, r: Ref)
    requires ListAt(d, FreeList, l, PageTag) && k < |l| && Page(y) in d && Page(z) in d && y !in l && z !in l && r in d
    requires Page(l[k]) in d && z != l[k] && d[Page(l[k])].prev in d && d[Page(l[k])].next in d
    ensures var d' := SplitAt(d, l[k], y, z, slab);
      && (Outside(r, FreeList, l) && r != Page(y) && r != Page(z) ==> d'[r] == d[r])
      && (r != FreeList && !Outside(r, FreeList, l) ==> StillListed(d, d', r))
      && d'[Page(y)].slab == slab && d'[Page(y)].next != Null && d'[Page(y)].tag == PageTag
      && (y != z ==> d'[Page(z)] == d[Page(z)].(prev := Page(y), tag := PageTag))
  {
    var d1 := SplitDefined(d, l, k, y, z);
    SubstituteAt(d1, FreeList, l, k, y, slab, r);
    SubstituteAt(d1, FreeList, l, k, y, slab, Page(z));
  }

  lemma SplitOk(d: Store, l: seq<nat>, k: nat, y: nat, z: nat, slab: nat)
    requires ListAt(d, FreeList, l, PageTag) && k < |l| && Page(y) in d && Page(z) in d && y !in l && z !in l
    ensures Page(l[k]) in d && z != l[k] && d[Page(l[k])].prev in d && d[Page(l[k])].next in d
    ensures ListAt(SplitAt(d, l[k], y, z, slab), FreeList, l[k := y], PageTag)
  {
    var d1 := SplitDefined(d, l, k, y, z);
    SubstituteOk(d1, FreeList, l, k, y, slab);
  }

  lemma WithoutMembers(l: seq<nat>, k: nat, x: nat)
    requires k < |l| && Distinct(l)
    ensures x in Without(l, k) <==> x in l && x != l[k]
  {
    if x in l && x != l[k] {
      var j :| 0 <= j < |l| && l[j] == x;
      assert Without(l, k)[if j < k then j else j - 1] == x;
    }
  }

  lemma UpdateMembers(l: seq<nat>, k: nat, y: nat, x: nat)
    requires k < |l| && Distinct(l) && y !in l
    ensures x in l[k := y] <==> x == y || (x in l && x != l[k])
  {
    var l' := l[k := y];
    assert l'[k] == y;
    if x in l && x != l[k] {
      var j :| 0 <= j < |l| && l[j] == x;
      assert l'[j] == x;
    }
  }

  /** The slab word of the unlinked page plays no part in unlinking. */
  lemma UnlinkIgnoresSlab(d: Store, x: nat, v: nat, e: Desc)
    requires Page(x) in d && d[Page(x)].prev in d && d[Page(x)].next in d && d[Page(x)].prev != Page(x) &&
             d[Page(x)].next != Page(x)
    ensures Unlink(d[Page(x) := d[Page(x)].(slab := v)], x)[Page(x) := e] == Unlink(d, x)[Page(x) := e]
  {
  }
}
