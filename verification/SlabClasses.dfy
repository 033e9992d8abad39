/**
 Chunk pages of the slab allocator entering, leaving and moving within the lists of
 their size classes.
 */
module SlabClasses {
  import opened SlabList
  import opened SlabLayout
  import opened SlabPages

  /** The descriptor of a listed page of class c that keeps its slab word. */
  lemma StillPartial(s: Pool, s': Pool, i: nat, c: nat)
    requires i < |s.kind| && i < |s'.kind| && Page(i) in s.d && Page(i) in s'.d
    requires s'.kind[i] == s.kind[i] && s.kind[i].sort == Chunks(c) && DescOk(s, i) && Bits(s', i) == Bits(s, i)
    requires s.d[Page(i)].next != Null && StillListed(s.d, s'.d, Page(i))
    ensures DescOk(s', i)
  {
  }

  /** A page that is the same in both pools, up to the bitmaps of other pages. */
  lemma SamePage(s: Pool, s': Pool, i: nat)
    requires i < |s.kind| == |s'.kind| && Page(i) in s.d && Page(i) in s'.d
    requires s'.kind[i] == s.kind[i] && s'.d[Page(i)] == s.d[Page(i)] && Bits(s', i) == Bits(s, i) && DescOk(s, i)
    ensures DescOk(s', i)
  {
  }

  // ----- leaving a list -----

  ghost predicate CanDetach(s: Pool, c: nat, pos: nat) {
    Inv(s) && c in s.partial && pos < |s.partial[c]|
  }

  lemma ListedPage(s: Pool, c: nat, pos: nat)
    requires CanDetach(s, c, pos)
    ensures var i := s.partial[c][pos];
            Partial(s, c, i) && DescOk(s, i) && IsHead(s.kind, i) && s.kind[i] == Piece(i, 1, Chunks(c))
    ensures var i := s.partial[c][pos]; Page(i) in s.d && s.d[Page(i)].prev in s.d && s.d[Page(i)].next in s.d
    ensures ListAt(s.d, Slot(c), s.partial[c], TagOf(c))
  {
    assert ClassListed(s, c);
    assert s.partial[c][pos] in s.partial[c];
    UnlinkDefined(s.d, Slot(c), s.partial[c], TagOf(c), pos);
  }

  /** A partly used page leaves its list and becomes Loose. */
  ghost function Detach(s: Pool, c: nat, pos: nat): Pool
    requires CanDetach(s, c, pos)
  {
    ListedPage(s, c, pos);
    var i := s.partial[c][pos];
    s.(d := Unlink(s.d, i), kind := Recast(s.kind, s.kind[i], Loose),
        partial := s.partial[c := Without(s.partial[c], pos)])
  }

  lemma DetachAt(s: Pool, c: nat, pos: nat, j: nat)
    requires CanDetach(s, c, pos) && j < |s.kind|
    ensures DescOk(Detach(s, c, pos), j)
    ensures j in Detach(s, c, pos).partial[c] <==> j in s.partial[c] && j != s.partial[c][pos]
    ensures j !in s.partial[c] ==> Detach(s, c, pos).d[Page(j)] == s.d[Page(j)]
    ensures j in s.partial[c] && j != s.partial[c][pos] ==> Detach(s, c, pos).d[Page(j)].next != Null
  {
    ListedPage(s, c, pos);
    UnlinkAt(s.d, Slot(c), s.partial[c], TagOf(c), pos, Page(j));
    WithoutMembers(s.partial[c], pos, j);
    assert DescOk(s, j) && ClassListed(s, c);
    var s' := Detach(s, c, pos);
    if j in s.partial[c] {
      assert Partial(s, c, j);
      if j != s.partial[c][pos] { StillPartial(s, s', j, c); }
    } else {
      SamePage(s, s', j);
    }
  }

  lemma DetachHeads(s: Pool, c: nat, pos: nat)
    requires CanDetach(s, c, pos)
    ensures Detach(s, c, pos).d.Keys == s.d.Keys
    ensures FreeList in s.d && Detach(s, c, pos).d[FreeList] == s.d[FreeList]
    ensures forall b :: b in s.partial && b != c ==> Slot(b) in s.d && Detach(s, c, pos).d[Slot(b)] == s.d[Slot(b)]
  {
    ListedPage(s, c, pos);
    UnlinkAt(s.d, Slot(c), s.partial[c], TagOf(c), pos, FreeList);
    forall b | b in s.partial && b != c ensures Slot(b) in s.d && Detach(s, c, pos).d[Slot(b)] == s.d[Slot(b)] {
      assert ClassListed(s, b);
      UnlinkAt(s.d, Slot(c), s.partial[c], TagOf(c), pos, Slot(b));
    }
  }

  lemma DetachOwn(s: Pool, c: nat, pos: nat)
    requires CanDetach(s, c, pos) && Shape(Detach(s, c, pos))
    ensures ClassListed(Detach(s, c, pos), c)
  {
    ListedPage(s, c, pos);
    var s' := Detach(s, c, pos);
    UnlinkOk(s.d, Slot(c), s.partial[c], TagOf(c), pos);
    forall j: nat ensures j in s'.partial[c] <==> Partial(s', c, j) {
      assert ClassListed(s, c);
      if j < |s.kind| {
        DetachAt(s, c, pos, j);
        assert j in s.partial[c] <==> Partial(s, c, j);
      } else {
        WithoutMembers(s.partial[c], pos, j);
        assert j in s.partial[c] <==> Partial(s, c, j);
      }
    }
  }

  /** Other lists do not notice a change confined to class c pages. */
  lemma OtherLists(s: Pool, s': Pool, c: nat)
    requires Inv(s) && Shape(s') && |s'.kind| == |s.kind| && s'.free == s.free && c in s.partial &&
             s'.minShift == s.minShift
    requires s'.partial.Keys == s.partial.Keys && forall b :: b in s.partial && b != c ==> s'.partial[b] == s.partial[b]
    requires FreeList in s'.d && FreeList in s.d && s'.d[FreeList] == s.d[FreeList]
    requires forall b :: b in s.partial && b != c ==> Slot(b) in s'.d && Slot(b) in s.d && s'.d[Slot(b)] == s.d[Slot(b)]
    requires forall j :: 0 <= j < |s.kind| ==> OtherPage(s, s', c, j)
    requires ClassListed(s', c)
    ensures Listed(s')
  {
    forall j | FreeAt(s.kind, j) ensures SameLinks(s.d, s'.d, Page(j)) {
      assert OtherPage(s, s', c, j);
    }
    forall j ensures FreeAt(s'.kind, j) <==> FreeAt(s.kind, j) {
      if 0 <= j < |s.kind| { assert OtherPage(s, s', c, j); }
    }
    FreeListFrame(s, s');
    forall b | b in s'.partial ensures ClassListed(s', b) {
      if b != c {
        assert ClassListed(s, b);
        forall j | 0 <= j < |s.kind| && (s.kind[j].sort == Chunks(b) || s'.kind[j].sort == Chunks(b))
          ensures s'.kind[j] == s.kind[j] && SameLinks(s.d, s'.d, Page(j))
        {
          assert OtherPage(s, s', c, j);
        }
        ClassFrame(s, s', b);
      }
    }
  }

  /** Page j is Loose or of class c in both pools, or it is the same in both. */
  predicate OtherPage(s: Pool, s': Pool, c: nat, j: nat)
    requires j < |s.kind| && j < |s'.kind|
  {
    || (s.kind[j].sort in {Loose, Chunks(c)} && s'.kind[j].sort in {Loose, Chunks(c)})
    || (s'.kind[j] == s.kind[j] && Page(j) in s.d && Page(j) in s'.d && s'.d[Page(j)] == s.d[Page(j)])
  }

  lemma DetachInv(s: Pool, c: nat, pos: nat)
    requires CanDetach(s, c, pos)
    ensures Inv(Detach(s, c, pos))
  {
    ListedPage(s, c, pos);
    var s', i := Detach(s, c, pos), s.partial[c][pos];
    RecastPartition(s.kind, s.kind[i], Loose);
    DetachHeads(s, c, pos);
    assert Shape(s');
    DetachOwn(s, c, pos);
    forall j | 0 <= j < |s.kind| ensures DescOk(s', j) && OtherPage(s, s', c, j) {
      DetachAt(s, c, pos, j);
      assert ClassListed(s, c);
      assert j in s.partial[c] <==> Partial(s, c, j);
    }
    OtherLists(s, s', c);
  }

  /** A full page, on no list, becomes Loose. */
  lemma DetachFullInv(s: Pool, s': Pool, i: nat, c: nat)
    requires Inv(s) && i < |s.kind| && s.kind[i].sort == Chunks(c) && s.d[Page(i)].next == Null
    requires s' == s.(kind := Recast(s.kind, s.kind[i], Loose))
    ensures Inv(s') && IsHead(s.kind, i) && s'.kind[i] == Piece(i, 1, Loose)
  {
    RecastPartition(s.kind, s.kind[i], Loose);
    assert Shape(s');
    assert c in s.partial;
    assert ClassListed(s, c);
    forall j: nat ensures j in s'.partial[c] <==> Partial(s', c, j) {
      assert j in s.partial[c] <==> Partial(s, c, j);
    }
    assert ClassListed(s', c);
    forall j | 0 <= j < |s.kind| ensures DescOk(s', j) && OtherPage(s, s', c, j) {
      assert DescOk(s, j);
    }
    forall b | b in s.partial ensures Slot(b) in s.d { assert ClassListed(s, b); }
    OtherLists(s, s', c);
  }

  // ----- entering -----

  ghost predicate IsLoosePage(s: Pool, i: nat) {
    Inv(s) && i < |s.kind| && s.kind[i] == Piece(i, 1, Loose)
  }

  /** A Loose page becomes a full page of class c, on no list. */
  lemma AttachFullInv(s: Pool, s': Pool, i: nat, c: nat, e: Desc)
    requires IsLoosePage(s, i) && IsClass(s, c) && e.next == Null
    requires s' == s.(d := s.d[Page(i) := e], kind := Recast(s.kind, s.kind[i], Chunks(c)), bits := s'.bits)
    requires forall j :: 0 <= j < |s.kind| && j != i ==> Bits(s', j) == Bits(s, j)
    requires ChunkDesc(e, Bits(s', i), c)
    ensures Inv(s')
  {
    RecastPartition(s.kind, s.kind[i], Chunks(c));
    assert Shape(s');
    assert c in s.partial && ClassListed(s, c);
    LooseUnlisted(s, i, c);
    forall x | x in s.partial[c] ensures SameLinks(s.d, s'.d, Page(x)) { assert Partial(s, c, x); }
    ListFrame(s.d, s'.d, Slot(c), s.partial[c], TagOf(c));
    forall j: nat ensures j in s'.partial[c] <==> Partial(s', c, j) {
      assert j in s.partial[c] <==> Partial(s, c, j);
    }
    assert ClassListed(s', c);
    forall j | 0 <= j < |s.kind| ensures DescOk(s', j) && OtherPage(s, s', c, j) {
      assert DescOk(s, j);
      if j != i { SamePage(s, s', j); }
    }
    forall b | b in s.partial ensures Slot(b) in s.d { assert ClassListed(s, b); }
    OtherLists(s, s', c);
  }

  lemma LooseUnlisted(s: Pool, i: nat, c: nat)
    requires IsLoosePage(s, i) && c in s.partial
    ensures i !in s.partial[c] && i !in s.free && ListAt(s.d, Slot(c), s.partial[c], TagOf(c)) &&
            s.d[Slot(c)].next in s.d
  {
    assert ClassListed(s, c);
    assert !Partial(s, c, i) && !FreeAt(s.kind, i);
    PushDefined(s.d, Slot(c), s.partial[c], TagOf(c));
  }

  /** Page i is Loose and holds the bitmap of a page of class c with room left. */
  ghost predicate CanAttach(s: Pool, i: nat, c: nat) {
    IsLoosePage(s, i) && IsClass(s, c) && Encoded(s.d[Page(i)].slab, Bits(s, i), c) &&
      !Full(s.d[Page(i)].slab, Bits(s, i), c)
  }

  /** It goes to the head of the list of its class. */
  ghost function Attach(s: Pool, i: nat, c: nat): Pool
    requires CanAttach(s, i, c)
  {
    LooseUnlisted(s, i, c);
    s.(d := PushFront(s.d, Slot(c), i, TagOf(c)), kind := Recast(s.kind, s.kind[i], Chunks(c)),
        partial := s.partial[c := [i] + s.partial[c]])
  }

  lemma AttachAt(s: Pool, i: nat, c: nat, j: nat)
    requires CanAttach(s, i, c) && j < |s.kind|
    ensures DescOk(Attach(s, i, c), j)
    ensures j != i && j !in s.partial[c] ==> Attach(s, i, c).d[Page(j)] == s.d[Page(j)]
    ensures j == i || j in s.partial[c] ==> Attach(s, i, c).d[Page(j)].next != Null
  {
    LooseUnlisted(s, i, c);
    PushAt(s.d, Slot(c), s.partial[c], TagOf(c), i, Page(j));
    assert DescOk(s, j) && ClassListed(s, c);
    var s' := Attach(s, i, c);
    if j == i {
    } else if j in s.partial[c] {
      assert Partial(s, c, j);
      StillPartial(s, s', j, c);
    } else {
      SamePage(s, s', j);
    }
  }

  lemma AttachHeads(s: Pool, i: nat, c: nat)
    requires CanAttach(s, i, c)
    ensures Attach(s, i, c).d.Keys == s.d.Keys
    ensures FreeList in s.d && Attach(s, i, c).d[FreeList] == s.d[FreeList]
    ensures forall b :: b in s.partial && b != c ==> Slot(b) in s.d && Attach(s, i, c).d[Slot(b)] == s.d[Slot(b)]
  {
    LooseUnlisted(s, i, c);
    PushAt(s.d, Slot(c), s.partial[c], TagOf(c), i, FreeList);
    forall b | b in s.partial && b != c ensures Slot(b) in s.d && Attach(s, i, c).d[Slot(b)] == s.d[Slot(b)] {
      assert ClassListed(s, b);
      PushAt(s.d, Slot(c), s.partial[c], TagOf(c), i, Slot(b));
    }
  }

  lemma AttachOwn(s: Pool, i: nat, c: nat)
    requires CanAttach(s, i, c) && Shape(Attach(s, i, c))
    ensures ClassListed(Attach(s, i, c), c)
  {
    LooseUnlisted(s, i, c);
    var s' := Attach(s, i, c);
    PushOk(s.d, Slot(c), s.partial[c], TagOf(c), i);
    forall j: nat ensures j in s'.partial[c] <==> Partial(s', c, j) {
      assert ClassListed(s, c);
      assert j in s.partial[c] <==> Partial(s, c, j);
      if j < |s.kind| { AttachAt(s, i, c, j); }
    }
  }

  lemma AttachInv(s: Pool, i: nat, c: nat)
    requires CanAttach(s, i, c)
    ensures Inv(Attach(s, i, c))
  {
    var s' := Attach(s, i, c);
    RecastPartition(s.kind, s.kind[i], Chunks(c));
    AttachHeads(s, i, c);
    assert Shape(s');
    AttachOwn(s, i, c);
    forall j | 0 <= j < |s.kind| ensures DescOk(s', j) && OtherPage(s, s', c, j) {
      AttachAt(s, i, c, j);
      assert ClassListed(s, c);
      assert j in s.partial[c] <==> Partial(s, c, j);
    }
    OtherLists(s, s', c);
  }

  // ----- staying on a list -----

  /** The bitmap of a listed page changes, and the page keeps room. */
  lemma EditInv(s: Pool, s': Pool, i: nat, c: nat, slab: nat)
    requires Inv(s) && i < |s.kind| && Partial(s, c, i)
    requires s' == s.(d := s.d[Page(i) := s.d[Page(i)].(slab := slab)], bits := s'.bits)
    requires forall j :: 0 <= j < |s.kind| && j != i ==> Bits(s', j) == Bits(s, j)
    requires Encoded(slab, Bits(s', i), c) && !Full(slab, Bits(s', i), c)
    ensures Inv(s')
  {
    assert Shape(s');
    assert c in s.partial && ClassListed(s, c) && DescOk(s, i);
    forall x | x in s.partial[c] ensures SameLinks(s.d, s'.d, Page(x)) { assert Partial(s, c, x); }
    ListFrame(s.d, s'.d, Slot(c), s.partial[c], TagOf(c));
    forall j: nat ensures j in s'.partial[c] <==> Partial(s', c, j) {
      assert j in s.partial[c] <==> Partial(s, c, j);
    }
    assert ClassListed(s', c);
    forall j | 0 <= j < |s.kind| ensures DescOk(s', j) && OtherPage(s, s', c, j) {
      assert DescOk(s, j);
      if j != i { SamePage(s, s', j); }
    }
    forall b | b in s.partial ensures Slot(b) in s.d { assert ClassListed(s, b); }
    OtherLists(s, s', c);
  }
}
