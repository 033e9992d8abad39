/**
 Page runs of the slab allocator: ngx_slab_alloc_pages and ngx_slab_free_pages as
 steps on the layout.  A run on its way between free and allocated is a Loose piece.
 */
module SlabPages {
  import opened Words
  import opened SlabList
  import opened SlabLayout

  // ----- pieces -----

  lemma SamePiece(kind: seq<Piece>, i: nat, j: nat)
    requires Partition(kind) && i < |kind| && Covers(kind[i], j)
    ensures j < |kind| && kind[j] == kind[i]
  {
  }

  /** Where a piece ends, another begins. */
  lemma NextHead(kind: seq<Piece>, x: nat)
    requires Partition(kind) && x < |kind| && kind[x].start + kind[x].len < |kind|
    ensures IsHead(kind, kind[x].start + kind[x].len)
  {
    var e := kind[x].start + kind[x].len;
    if kind[e].start < e {
      SamePiece(kind, x, e - 1);
      SamePiece(kind, e, e - 1);
    }
  }

  lemma PrevTail(kind: seq<Piece>, x: nat)
    requires Partition(kind) && IsHead(kind, x) && x > 0
    ensures kind[x-1].start + kind[x-1].len == x
  {
    if kind[x-1].start + kind[x-1].len > x {
      SamePiece(kind, x - 1, x);
    }
  }

  /** The piece p changes its use. */
  function Recast(kind: seq<Piece>, p: Piece, sort: Sort): (r: seq<Piece>)
    ensures |r| == |kind|
    ensures forall i {:trigger r[i]} :: 0 <= i < |kind| ==> r[i] == if kind[i] == p then p.(sort := sort) else kind[i]
  {
    seq(|kind|, i requires 0 <= i < |kind| => if kind[i] == p then p.(sort := sort) else kind[i])
  }

  lemma RecastPartition(kind: seq<Piece>, p: Piece, sort: Sort)
    requires Partition(kind)
    requires sort.Chunks? ==> p.len == 1 && 3 <= sort.shift < PAGE_SHIFT
    ensures Partition(Recast(kind, p, sort))
  {
    var r := Recast(kind, p, sort);
    forall i, j | 0 <= i < |r| && Covers(r[i], j) ensures 0 <= j < |r| && r[j] == r[i] {
      assert Covers(kind[i], j);
    }
  }

  /** A single page leaves its use and comes back to it. */
  lemma RecastBack(kind: seq<Piece>, i: nat, c: nat)
    requires Partition(kind) && i < |kind| && kind[i] == Piece(i, 1, Chunks(c))
    ensures Recast(Recast(kind, kind[i], Loose), Piece(i, 1, Loose), Chunks(c)) == kind
    ensures Recast(kind, kind[i], Loose)[i] == Piece(i, 1, Loose)
  {
    var r := Recast(kind, kind[i], Loose);
    forall j | 0 <= j < |kind| ensures Recast(r, Piece(i, 1, Loose), Chunks(c))[j] == kind[j] {
      if kind[j] == Piece(i, 1, Loose) { SamePiece(kind, j, i); }
    }
  }

  /** The free piece p is cut: its first m pages become Loose. */
  function Cut(kind: seq<Piece>, p: Piece, m: nat): (r: seq<Piece>)
    requires m < p.len
    ensures |r| == |kind|
    ensures forall i {:trigger r[i]} :: 0 <= i < |kind| ==>
      r[i] == if kind[i] != p then kind[i] else if i < p.start + m then Piece(p.start, m, Loose)
        else Piece(p.start + m, p.len - m, Free)
  {
    seq(|kind|, i requires 0 <= i < |kind| =>
      if kind[i] != p then kind[i] else if i < p.start + m then Piece(p.start, m, Loose)
        else Piece(p.start + m, p.len - m, Free))
  }

  lemma CutPartition(kind: seq<Piece>, p: Piece, m: nat)
    requires Partition(kind) && 0 < m < p.len
    ensures Partition(Cut(kind, p, m))
  {
    var r := Cut(kind, p, m);
    forall i, j | 0 <= i < |r| && Covers(r[i], j) ensures 0 <= j < |r| && r[j] == r[i] {
      assert Covers(kind[i], j);
    }
  }

  /** The adjacent pieces p and q become one Loose piece. */
  function Merge(kind: seq<Piece>, p: Piece, q: Piece): (r: seq<Piece>)
    ensures |r| == |kind|
    ensures forall i {:trigger r[i]} :: 0 <= i < |kind| ==>
      r[i] == if kind[i] == p || kind[i] == q then Piece(p.start, p.len + q.len, Loose) else kind[i]
  {
    seq(|kind|, i requires 0 <= i < |kind| =>
      if kind[i] == p || kind[i] == q then Piece(p.start, p.len + q.len, Loose) else kind[i])
  }

  lemma MergePartition(kind: seq<Piece>, x: nat, y: nat)
    requires Partition(kind) && IsHead(kind, x) && IsHead(kind, y) && kind[x].start + kind[x].len == y
    ensures Partition(Merge(kind, kind[x], kind[y]))
  {
    var p, q := kind[x], kind[y];
    var r := Merge(kind, p, q);
    forall i, j | 0 <= i < |r| && Covers(r[i], j) ensures 0 <= j < |r| && r[j] == r[i] {
      if kind[i] == p || kind[i] == q {
        if j < y { SamePiece(kind, x, j); } else { SamePiece(kind, y, j); }
      } else {
        assert Covers(kind[i], j);
      }
    }
  }

  // ----- frames -----

  /** Chunk page i, if it is one in either pool, is the same in both. */
  predicate SameChunkPage(s: Pool, s': Pool, i: nat)
    requires i < |s.kind| && i < |s'.kind|
  {
    s.kind[i].sort.Chunks? || s'.kind[i].sort.Chunks? ==>
      s'.kind[i] == s.kind[i] && Page(i) in s.d && Page(i) in s'.d && s'.d[Page(i)] == s.d[Page(i)]
  }

  lemma SameDesc(s: Pool, s': Pool, i: nat)
    requires i < |s.kind| == |s'.kind| && Page(i) in s.d && Page(i) in s'.d
    requires s'.kind[i] == s.kind[i] && s'.d[Page(i)] == s.d[Page(i)] && s'.bits == s.bits && DescOk(s, i)
    ensures DescOk(s', i) && SameChunkPage(s, s', i)
  {
  }

  /** A listed head of a free run that stays listed. */
  lemma StillFree(s: Pool, s': Pool, i: nat)
    requires i < |s.kind| == |s'.kind| && Page(i) in s.d && Page(i) in s'.d
    requires s'.kind[i] == s.kind[i] && FreeAt(s.kind, i) && DescOk(s, i) && StillListed(s.d, s'.d, Page(i))
    ensures DescOk(s', i) && SameChunkPage(s, s', i)
  {
  }

  /** Chunk pages and class lists are the same in both pools. */
  ghost predicate SameChunks(s: Pool, s': Pool) {
    && |s'.kind| == |s.kind| && s'.minShift == s.minShift && s'.partial == s.partial && s'.bits == s.bits
    && (forall i :: 0 <= i < |s.kind| ==> SameChunkPage(s, s', i))
    && (forall c :: c in s.partial ==> Slot(c) in s.d ==> Slot(c) in s'.d && s'.d[Slot(c)] == s.d[Slot(c)])
  }

  lemma ClassFrame(s: Pool, s': Pool, c: nat)
    requires Shape(s) && Shape(s') && c in s.partial && c in s'.partial && ClassListed(s, c) &&
             s'.partial[c] == s.partial[c]
    requires |s'.kind| == |s.kind| && Slot(c) in s'.d && s'.d[Slot(c)].next == s.d[Slot(c)].next
    requires forall i :: 0 <= i < |s.kind| && (s.kind[i].sort == Chunks(c) || s'.kind[i].sort == Chunks(c)) ==>
             s'.kind[i] == s.kind[i] && SameLinks(s.d, s'.d, Page(i))
    ensures ClassListed(s', c)
  {
    forall x | x in s.partial[c] ensures SameLinks(s.d, s'.d, Page(x)) {
      assert Partial(s, c, x);
    }
    ListFrame(s.d, s'.d, Slot(c), s.partial[c], TagOf(c));
    forall i ensures i in s'.partial[c] <==> Partial(s', c, i) {
      assert i in s.partial[c] <==> Partial(s, c, i);
    }
  }

  lemma ClassesFrame(s: Pool, s': Pool)
    requires Shape(s) && Shape(s') && SameChunks(s, s')
    requires forall c :: c in s.partial ==> ClassListed(s, c)
    ensures forall c :: c in s'.partial ==> ClassListed(s', c)
  {
    forall c | c in s'.partial ensures ClassListed(s', c) {
      assert ClassListed(s, c);
      forall i | 0 <= i < |s.kind| && (s.kind[i].sort == Chunks(c) || s'.kind[i].sort == Chunks(c))
        ensures s'.kind[i] == s.kind[i] && SameLinks(s.d, s'.d, Page(i))
      {
        assert SameChunkPage(s, s', i);
      }
      ClassFrame(s, s', c);
    }
  }

  lemma NoEmptyFrame(s: Pool, s': Pool, except: int)
    requires Shape(s) && Shape(s') && SameChunks(s, s') && NoEmptyChunkPage(s, except)
    ensures NoEmptyChunkPage(s', except)
  {
    forall i | 0 <= i < |s'.kind| && s'.kind[i].sort.Chunks? && i != except
      ensures !Empty(s'.d[Page(i)].slab, Bits(s', i), s'.kind[i].sort.shift)
    {
      assert SameChunkPage(s, s', i);
    }
  }

  lemma FreeListFrame(s: Pool, s': Pool)
    requires FreeListed(s) && s'.free == s.free && FreeList in s'.d && s'.d[FreeList].next == s.d[FreeList].next
    requires forall i :: FreeAt(s.kind, i) ==> SameLinks(s.d, s'.d, Page(i))
    requires forall i :: FreeAt(s'.kind, i) <==> FreeAt(s.kind, i)
    ensures FreeListed(s')
  {
    ListFrame(s.d, s'.d, FreeList, s.free, PageTag);
  }

  // ----- taking pages from the free list -----

  lemma FreeHead(s: Pool, k: nat)
    requires Inv(s) && k < |s.free|
    ensures var x := s.free[k]; FreeAt(s.kind, x) && s.d[Page(x)].slab == s.kind[x].len && s.kind[x].len > 0
    ensures TakeReady(s, k)
  {
    var x := s.free[k];
    assert x in s.free;
    assert FreeAt(s.kind, x) && DescOk(s, x);
    UnlinkDefined(s.d, FreeList, s.free, PageTag, k);
  }

  predicate TakeReady(s: Pool, k: nat) {
    k < |s.free| && s.free[k] < |s.kind| && Page(s.free[k]) in s.d && s.d[Page(s.free[k])].prev in s.d &&
      s.d[Page(s.free[k])].next in s.d
  }

  /** The whole free run at position k leaves the free list. */
  ghost function TakeAll(s: Pool, k: nat): Pool
    requires TakeReady(s, k)
  {
    var x := s.free[k];
    s.(d := Unlink(s.d, x), kind := Recast(s.kind, s.kind[x], Loose), free := Without(s.free, k))
  }

  lemma TakeAllAt(s: Pool, k: nat, i: nat)
    requires Inv(s) && k < |s.free| && TakeReady(s, k) && i < |s.kind|
    ensures DescOk(TakeAll(s, k), i) && SameChunkPage(s, TakeAll(s, k), i)
  {
    FreeHead(s, k);
    UnlinkAt(s.d, FreeList, s.free, PageTag, k, Page(i));
    assert DescOk(s, i);
    assert i in s.free <==> FreeAt(s.kind, i);
  }

  lemma TakeAllFree(s: Pool, k: nat)
    requires Inv(s) && k < |s.free| && TakeReady(s, k)
    ensures FreeListed(TakeAll(s, k))
  {
    FreeHead(s, k);
    UnlinkOk(s.d, FreeList, s.free, PageTag, k);
    var s' := TakeAll(s, k);
    forall i ensures i in s'.free <==> FreeAt(s'.kind, i) {
      if i >= 0 { WithoutMembers(s.free, k, i); }
      assert i in s.free <==> FreeAt(s.kind, i);
    }
  }

  lemma TakeAllShape(s: Pool, k: nat)
    requires Inv(s) && k < |s.free| && TakeReady(s, k)
    ensures Shape(TakeAll(s, k))
  {
    FreeHead(s, k);
    RecastPartition(s.kind, s.kind[s.free[k]], Loose);
  }

  lemma TakeAllInv(s: Pool, k: nat)
    requires Inv(s) && k < |s.free|
    ensures TakeReady(s, k) && Inv(TakeAll(s, k)) && SameChunks(s, TakeAll(s, k))
  {
    FreeHead(s, k);
    var s' := TakeAll(s, k);
    TakeAllShape(s, k);
    TakeAllFree(s, k);
    FreeHead(s, k);
    forall i | 0 <= i < |s'.kind| ensures DescOk(s', i) && SameChunkPage(s, s', i) {
      TakeAllAt(s, k, i);
    }
    forall c | c in s.partial && Slot(c) in s.d ensures s'.d[Slot(c)] == s.d[Slot(c)] {
      UnlinkAt(s.d, FreeList, s.free, PageTag, k, Slot(c));
    }
    ClassesFrame(s, s');
  }

  ghost predicate CanSplit(s: Pool, k: nat, m: nat) {
    Inv(s) && k < |s.free| && s.free[k] < |s.kind| && 0 < m < s.kind[s.free[k]].len
  }

  /** The pointers that lines 630-639 follow are good. */
  predicate SplitReady(s: Pool, k: nat, m: nat) {
    k < |s.free| && s.free[k] < |s.kind| && 0 < m < s.kind[s.free[k]].len &&
    var x, p := s.free[k], s.kind[s.free[k]];
    && Page(x) in s.d && Page(x + m) in s.d && Page(x + p.len - 1) in s.d && s.d[Page(x)].prev in s.d &&
       s.d[Page(x)].next in s.d
    && x + m !in s.free && x + p.len - 1 !in s.free
  }

  /** Lines 630-639: the first m pages of the free run at position k leave it, the rest stays listed. */
  ghost function TakeSome(s: Pool, k: nat, m: nat): Pool
    requires SplitReady(s, k, m)
  {
    var x, p := s.free[k], s.kind[s.free[k]];
    s.(d := SplitAt(s.d, x, x + m, x + p.len - 1, p.len - m), kind := Cut(s.kind, p, m), free := s.free[k := x + m])
  }

  lemma CutPoints(s: Pool, k: nat, m: nat)
    requires CanSplit(s, k, m)
    ensures SplitReady(s, k, m)
    ensures var x, p := s.free[k], s.kind[s.free[k]];
            FreeAt(s.kind, x) && s.kind[x + m] == p && s.kind[x + p.len - 1] == p
  {
    FreeHead(s, k);
    var x, p := s.free[k], s.kind[s.free[k]];
    SamePiece(s.kind, x, x + p.len - 1);
    SamePiece(s.kind, x, x + m);
    assert !FreeAt(s.kind, x + p.len - 1) && !FreeAt(s.kind, x + m);
  }

  /** Page i after the split of the free piece p, given how its descriptor changed. */
  lemma TakeSomeAt(s: Pool, s': Pool, p: Piece, m: nat, i: nat)
    requires i < |s.kind| == |s'.kind| && 0 < m < p.len && p.sort.Free? && s'.bits == s.bits && Page(i) in s.d &&
             Page(i) in s'.d
    requires s'.kind[i] == if s.kind[i] != p then s.kind[i] else if i < p.start + m then Piece(p.start, m, Loose)
             else Piece(p.start + m, p.len - m, Free)
    requires s.kind[i] == p <==> Covers(p, i)
    requires DescOk(s, i) && (i in s.free <==> FreeAt(s.kind, i))
    requires SplitFacts(s.d, s'.d, s.free, p.start + m, p.start + p.len - 1, p.len - m, i)
    ensures DescOk(s', i) && SameChunkPage(s, s', i)
  {
    if s.kind[i] == p {
      SplitDescs(s.d, s'.d, p, m, i, |s.kind|);
    } else if i in s.free {
      StillFree(s, s', i);
    } else {
      SameDesc(s, s', i);
    }
  }

  lemma TakeSomePoint(s: Pool, k: nat, m: nat, i: nat)
    requires SplitReady(s, k, m) && ListAt(s.d, FreeList, s.free, PageTag) && i < |s.kind| && Page(i) in s.d
    requires var p := s.kind[s.free[k]]; p.start == s.free[k] && p.sort.Free? && (s.kind[i] == p <==> Covers(p, i))
    requires DescOk(s, i) && (i in s.free <==> FreeAt(s.kind, i))
    ensures DescOk(TakeSome(s, k, m), i) && SameChunkPage(s, TakeSome(s, k, m), i)
  {
    var x, p := s.free[k], s.kind[s.free[k]];
    SplitPoint(s.d, s.free, k, x + m, x + p.len - 1, p.len - m, i);
    TakeSomeAt(s, TakeSome(s, k, m), p, m, i);
  }

  /** Descriptors of the two parts of a split free run. */
  lemma SplitDescs(d: Store, d': Store, p: Piece, m: nat, i: nat, n: nat)
    requires Covers(p, i) && 0 < m < p.len && Page(i) in d && Page(i) in d' && FreeDesc(d[Page(i)], p, i, n)
    requires i != p.start && i != p.start + m && i != p.start + p.len - 1 ==> d'[Page(i)] == d[Page(i)]
    requires i == p.start + m ==>
             d'[Page(i)].slab == p.len - m && d'[Page(i)].next != Null && d'[Page(i)].tag == PageTag
    requires i == p.start + p.len - 1 && m < p.len - 1 ==>
             d'[Page(i)] == d[Page(i)].(prev := Page(p.start + m), tag := PageTag)
    ensures i >= p.start + m ==> FreeDesc(d'[Page(i)], Piece(p.start + m, p.len - m, Free), i, n)
  {
  }

  lemma TakeSomeFree(s: Pool, k: nat, m: nat)
    requires CanSplit(s, k, m) && SplitReady(s, k, m)
    ensures FreeListed(TakeSome(s, k, m))
  {
    CutPoints(s, k, m);
    var x, p := s.free[k], s.kind[s.free[k]];
    SplitOk(s.d, s.free, k, x + m, x + p.len - 1, p.len - m);
    var s' := TakeSome(s, k, m);
    forall i ensures i in s'.free <==> FreeAt(s'.kind, i) {
      if i >= 0 { UpdateMembers(s.free, k, x + m, i); }
      assert i in s.free <==> FreeAt(s.kind, i);
    }
  }

  lemma TakeSomeChunks(s: Pool, k: nat, m: nat)
    requires CanSplit(s, k, m) && SplitReady(s, k, m)
    ensures SameChunks(s, TakeSome(s, k, m))
    ensures forall i :: 0 <= i < |s.kind| ==> Page(i) in s.d && DescOk(TakeSome(s, k, m), i)
  {
    CutPoints(s, k, m);
    var s', x, p := TakeSome(s, k, m), s.free[k], s.kind[s.free[k]];
    forall i | 0 <= i < |s'.kind| ensures DescOk(s', i) && SameChunkPage(s, s', i) {
      assert DescOk(s, i) && (i in s.free <==> FreeAt(s.kind, i));
      if Covers(p, i) { SamePiece(s.kind, x, i); }
      TakeSomePoint(s, k, m, i);
    }
    TakeSomeSlots(s, k, m);
  }

  lemma TakeSomeSlots(s: Pool, k: nat, m: nat)
    requires SplitReady(s, k, m) && ListAt(s.d, FreeList, s.free, PageTag)
    ensures forall c :: c in s.partial && Slot(c) in s.d ==>
            Slot(c) in TakeSome(s, k, m).d && TakeSome(s, k, m).d[Slot(c)] == s.d[Slot(c)]
  {
    var x, p := s.free[k], s.kind[s.free[k]];
    forall c | c in s.partial && Slot(c) in s.d
      ensures Slot(c) in TakeSome(s, k, m).d && TakeSome(s, k, m).d[Slot(c)] == s.d[Slot(c)]
    {
      SplitAtPoint(s.d, s.free, k, x + m, x + p.len - 1, p.len - m, Slot(c));
    }
  }

  lemma TakeSomeInv(s: Pool, k: nat, m: nat)
    requires CanSplit(s, k, m)
    ensures SplitReady(s, k, m) && Inv(TakeSome(s, k, m)) && SameChunks(s, TakeSome(s, k, m))
  {
    CutPoints(s, k, m);
    var s' := TakeSome(s, k, m);
    CutPartition(s.kind, s.kind[s.free[k]], m);
    assert Shape(s');
    TakeSomeFree(s, k, m);
    TakeSomeChunks(s, k, m);
    ClassesFrame(s, s');
  }

  // ----- steps on pages that are on no list -----

  /** Only descriptors of the piece p differ. */
  predicate OnlyPiece(d: Store, d': Store, p: Piece) {
    d'.Keys == d.Keys && forall r :: r in d && !(r.Page? && Covers(p, r.i)) ==> d'[r] == d[r]
  }

  /** A run that is neither free nor cut into chunks changes its use and its descriptors. */
  lemma FreeNotCovered(kind: seq<Piece>, x: nat, i: int)
    requires Partition(kind) && x < |kind| && !kind[x].sort.Free? && FreeAt(kind, i)
    ensures !Covers(kind[x], i)
  {
  }

  lemma UnlistedInv(s: Pool, s': Pool, x: nat, sort: Sort)
    requires Inv(s) && IsHead(s.kind, x) && (s.kind[x].sort.Loose? || s.kind[x].sort.Run?) && (sort.Loose? || sort.Run?)
    requires s' == s.(d := s'.d, kind := Recast(s.kind, s.kind[x], sort)) && OnlyPiece(s.d, s'.d, s.kind[x])
    requires forall i :: Covers(s.kind[x], i) ==> sort.Run? ==> RunDesc(s'.d[Page(i)], s.kind[x].(sort := sort), i)
    ensures Inv(s') && SameChunks(s, s')
  {
    var p := s.kind[x];
    RecastPartition(s.kind, p, sort);
    assert Shape(s');
    forall i | 0 <= i < |s.kind|
      ensures DescOk(s', i) && SameChunkPage(s, s', i) &&
        (FreeAt(s'.kind, i) <==> FreeAt(s.kind, i))
    {
      assert DescOk(s, i);
      if Covers(p, i) { SamePiece(s.kind, x, i); } else { SameDesc(s, s', i); }
    }
    forall i | FreeAt(s.kind, i) ensures SameLinks(s.d, s'.d, Page(i)) { FreeNotCovered(s.kind, x, i); }
    FreeListFrame(s, s');
    ClassesFrame(s, s');
  }

  // ----- coalescing -----

  /** The free run at position k leaves the free list and joins the adjacent Loose run at x. */
  ghost predicate Absorbs(s: Pool, s': Pool, k: nat, x: nat) {
    && Inv(s) && k < |s.free| && IsHead(s.kind, x) && s.kind[x].sort.Loose? && IsHead(s.kind, s.free[k])
    && Page(s.free[k]) in s.d && s.d[Page(s.free[k])].prev in s.d && s.d[Page(s.free[k])].next in s.d
    && (var y := s.free[k]; var p, q := s.kind[x], s.kind[y];
        && (x + p.len == y || y + q.len == x)
        && s' == s.(d := s'.d, free := Without(s.free, k),
                    kind := if x + p.len == y then Merge(s.kind, p, q) else Merge(s.kind, q, p))
        && s'.d.Keys == s.d.Keys
        && forall r :: r in s.d && r != Page(x) && r != Page(y) ==> s'.d[r] == Unlink(s.d, y)[r])
  }

  lemma AbsorbAt(s: Pool, s': Pool, k: nat, x: nat, i: nat)
    requires Absorbs(s, s', k, x) && i < |s.kind|
    ensures DescOk(s', i) && SameChunkPage(s, s', i)
    ensures i in s'.free <==> FreeAt(s'.kind, i)
  {
    FreeHead(s, k);
    UnlinkAt(s.d, FreeList, s.free, PageTag, k, Page(i));
    WithoutMembers(s.free, k, i);
    assert DescOk(s, i);
    assert i in s.free <==> FreeAt(s.kind, i);
    if s.kind[i] != s.kind[x] && s.kind[i] != s.kind[s.free[k]] {
      if i in s.free { StillFree(s, s', i); } else { SameDesc(s, s', i); }
    }
  }

  lemma AbsorbFree(s: Pool, s': Pool, k: nat, x: nat)
    requires Absorbs(s, s', k, x)
    ensures FreeListed(s')
  {
    FreeHead(s, k);
    UnlinkOk(s.d, FreeList, s.free, PageTag, k);
    var d1 := Unlink(s.d, s.free[k]);
    forall y | y in s'.free ensures SameLinks(d1, s'.d, Page(y)) {
      assert y in s.free && y != s.free[k] by { WithoutMembers(s.free, k, y); }
      assert FreeAt(s.kind, y);
    }
    ListFrame(d1, s'.d, FreeList, s'.free, PageTag);
    forall i ensures i in s'.free <==> FreeAt(s'.kind, i) {
      if 0 <= i < |s.kind| { AbsorbAt(s, s', k, x, i); }
      else if i >= 0 { WithoutMembers(s.free, k, i); assert i in s.free <==> FreeAt(s.kind, i); }
    }
  }

  lemma AbsorbInv(s: Pool, s': Pool, k: nat, x: nat)
    requires Absorbs(s, s', k, x)
    ensures Inv(s') && SameChunks(s, s')
  {
    AbsorbShape(s, s', k, x);
    AbsorbFree(s, s', k, x);
    forall i | 0 <= i < |s'.kind| ensures DescOk(s', i) && SameChunkPage(s, s', i) {
      AbsorbAt(s, s', k, x, i);
    }
    ClassesFrame(s, s');
  }

  lemma AbsorbShape(s: Pool, s': Pool, k: nat, x: nat)
    requires Absorbs(s, s', k, x)
    ensures Shape(s') && forall c :: c in s.partial && Slot(c) in s.d ==> s'.d[Slot(c)] == s.d[Slot(c)]
  {
    FreeHead(s, k);
    var y := s.free[k];
    if x + s.kind[x].len == y { MergePartition(s.kind, x, y); } else { MergePartition(s.kind, y, x); }
    forall c | c in s.partial && Slot(c) in s.d ensures s'.d[Slot(c)] == s.d[Slot(c)] {
      UnlinkAt(s.d, FreeList, s.free, PageTag, k, Slot(c));
    }
  }

  // ----- giving pages back -----

  /** Every descriptor of the Loose run p is cleared, except the length in its head. */
  ghost predicate Cleared(d: Store, p: Piece) {
    && Page(p.start) in d && d[Page(p.start)].slab == p.len
    && forall i :: p.start < i < p.start + p.len ==>
      Page(i) in d && d[Page(i)].slab == 0 && d[Page(i)].next == Null && d[Page(i)].tag == PageTag
  }

  /** if (pages) page[pages].prev = page */
  function TailSet(d: Store, p: Piece): Store
    requires p.len > 0 && Page(p.start + p.len - 1) in d
  {
    var t := Page(p.start + p.len - 1);
    if p.len > 1 then d[t := d[t].(prev := Page(p.start), tag := PageTag)] else d
  }

  ghost predicate CanGiveBack(s: Pool, x: nat) {
    Inv(s) && IsHead(s.kind, x) && s.kind[x].sort.Loose? && Cleared(s.d, s.kind[x])
  }

  lemma TailSetList(s: Pool, x: nat)
    requires CanGiveBack(s, x)
    ensures s.kind[x].len > 0 && Page(x + s.kind[x].len - 1) in s.d
    ensures var d1 := TailSet(s.d, s.kind[x]);
      d1.Keys == s.d.Keys && ListAt(d1, FreeList, s.free, PageTag) && x !in s.free && Page(x) in d1 &&
        d1[FreeList].next in d1
  {
    var p := s.kind[x];
    SamePiece(s.kind, x, x + p.len - 1);
    var d1 := TailSet(s.d, p);
    forall y | y in s.free ensures SameLinks(s.d, d1, Page(y)) {
      assert FreeAt(s.kind, y);
    }
    ListFrame(s.d, d1, FreeList, s.free, PageTag);
    PushDefined(d1, FreeList, s.free, PageTag);
    assert !FreeAt(s.kind, x);
  }

  /** Lines 743-752: the run becomes free and goes to the head of the free list. */
  ghost function GiveBack(s: Pool, x: nat): Pool
    requires CanGiveBack(s, x)
  {
    TailSetList(s, x);
    s.(d := PushFront(TailSet(s.d, s.kind[x]), FreeList, x, PageTag), kind := Recast(s.kind, s.kind[x], Free),
        free := [x] + s.free)
  }

  /** Page i after the Loose piece p was given back, given how its descriptor changed. */
  lemma GiveBackAt(s: Pool, s': Pool, p: Piece, i: nat)
    requires i < |s.kind| == |s'.kind| && p.sort.Loose? && p.len > 0 && s'.bits == s.bits && Page(i) in s.d &&
             Page(i) in s'.d
    requires s'.kind[i] == if s.kind[i] == p then p.(sort := Free) else s.kind[i]
    requires s.kind[i] == p <==> Covers(p, i)
    requires DescOk(s, i) && (i in s.free <==> FreeAt(s.kind, i)) && Cleared(s.d, p)
    requires i in s.free ==> StillListed(s.d, s'.d, Page(i))
    requires i == p.start ==> s'.d[Page(i)].slab == p.len && s'.d[Page(i)].next != Null && s'.d[Page(i)].tag == PageTag
    requires i !in s.free && i != p.start && i != p.start + p.len - 1 ==> s'.d[Page(i)] == s.d[Page(i)]
    requires p.start < i == p.start + p.len - 1 ==>
             s'.d[Page(i)] == s.d[Page(i)].(prev := Page(p.start), tag := PageTag)
    ensures DescOk(s', i) && SameChunkPage(s, s', i)
  {
    if s.kind[i] == p {
      assert !FreeAt(s.kind, i);
      FreedDescs(s.d, s'.d, p, i, |s.kind|);
    } else if i in s.free {
      StillFree(s, s', i);
    } else {
      SameDesc(s, s', i);
    }
  }

  lemma GiveBackPoint(s: Pool, x: nat, i: nat)
    requires CanGiveBack(s, x) && i < |s.kind|
    ensures DescOk(GiveBack(s, x), i) && SameChunkPage(s, GiveBack(s, x), i)
  {
    var p := s.kind[x];
    if Covers(p, i) { SamePiece(s.kind, x, i); }
    assert DescOk(s, i) && (i in s.free <==> FreeAt(s.kind, i));
    GiveBackDesc(s, x, i);
    GiveBackAt(s, GiveBack(s, x), p, i);
  }

  /** How the descriptor of page i changed. */
  lemma GiveBackDesc(s: Pool, x: nat, i: nat)
    requires CanGiveBack(s, x) && i < |s.kind|
    ensures var p, d' := s.kind[x], GiveBack(s, x).d;
      && Page(i) in s.d && Page(i) in d' && (i in s.free ==> StillListed(s.d, d', Page(i)))
      && (i == p.start ==> d'[Page(i)].slab == p.len && d'[Page(i)].next != Null && d'[Page(i)].tag == PageTag)
      && (i !in s.free && i != p.start && i != p.start + p.len - 1 ==> d'[Page(i)] == s.d[Page(i)])
      && (p.start < i == p.start + p.len - 1 ==> d'[Page(i)] == s.d[Page(i)].(prev := Page(p.start), tag := PageTag))
  {
    TailSetList(s, x);
    var p, d1 := s.kind[x], TailSet(s.d, s.kind[x]);
    PushAt(d1, FreeList, s.free, PageTag, x, Page(i));
    SamePiece(s.kind, x, x + p.len - 1);
    assert x + p.len - 1 !in s.free;
  }

  lemma GiveBackInv(s: Pool, x: nat)
    requires CanGiveBack(s, x)
    ensures Inv(GiveBack(s, x)) && SameChunks(s, GiveBack(s, x))
  {
    var s' := GiveBack(s, x);
    RecastPartition(s.kind, s.kind[x], Free);
    GiveBackLists(s, x);
    assert Shape(s');
    forall i | 0 <= i < |s'.kind| ensures DescOk(s', i) && SameChunkPage(s, s', i) {
      GiveBackPoint(s, x, i);
    }
    ClassesFrame(s, s');
  }

  lemma GiveBackLists(s: Pool, x: nat)
    requires CanGiveBack(s, x)
    ensures FreeListed(GiveBack(s, x)) && s.d.Keys <= GiveBack(s, x).d.Keys
    ensures forall c :: c in s.partial && Slot(c) in s.d ==> GiveBack(s, x).d[Slot(c)] == s.d[Slot(c)]
  {
    TailSetList(s, x);
    var s', d1 := GiveBack(s, x), TailSet(s.d, s.kind[x]);
    PushOk(d1, FreeList, s.free, PageTag, x);
    forall i ensures i in s'.free <==> FreeAt(s'.kind, i) {
      assert i in s.free <==> FreeAt(s.kind, i);
    }
    forall c | c in s.partial && Slot(c) in s.d ensures s'.d[Slot(c)] == s.d[Slot(c)] {
      PushAt(d1, FreeList, s.free, PageTag, x, Slot(c));
    }
  }

  /** Descriptors of a run that becomes free. */
  lemma FreedDescs(d: Store, d': Store, p: Piece, i: nat, n: nat)
    requires Covers(p, i) && Page(i) in d && Page(i) in d' && Cleared(d, p)
    requires i == p.start ==> d'[Page(i)].slab == p.len && d'[Page(i)].next != Null && d'[Page(i)].tag == PageTag
    requires p.start < i < p.start + p.len - 1 ==> d'[Page(i)] == d[Page(i)]
    requires p.start < i == p.start + p.len - 1 ==> d'[Page(i)] == d[Page(i)].(prev := Page(p.start), tag := PageTag)
    ensures FreeDesc(d'[Page(i)], p.(sort := Free), i, n)
  {
  }
}
