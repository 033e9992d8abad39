/**
 The blocks a slab pool has handed out, read off its layout, and what the layout
 guarantees about them: they are disjoint, inside the pool and clear of the bitmaps,
 and when none is left the pool is one free run again.
 */
module SlabBlocks {
  import opened Words
  import opened SlabList
  import opened SlabLayout
  import opened SlabPages
  import opened SlabChunks

  /** Size of the live block that starts `a` bytes into the pool; 0 if there is none. */
  ghost function SizeAt(s: Pool, a: nat): nat
    requires Shape(s)
  {
    var i, off := a / PAGE_SIZE, a % PAGE_SIZE;
    if i >= |s.kind| then 0 else
    match s.kind[i].sort
    case Run => if off == 0 && s.kind[i].start == i then s.kind[i].len * PAGE_SIZE else 0
    case Chunks(shift) =>
      if off % Pow2(shift) == 0 && Header(shift) <= off / Pow2(shift) &&
        Used(s.d[Page(i)].slab, Bits(s, i), shift, off / Pow2(shift))
      then Pow2(shift) else 0
    case _ => 0
  }

  /** The page is used for the same blocks in both pools. */
  predicate SameUse(s: Pool, s': Pool, i: nat)
    requires i < |s.kind| && i < |s'.kind| && Page(i) in s.d && Page(i) in s'.d
  {
    || ((s.kind[i].sort.Free? || s.kind[i].sort.Loose?) && (s'.kind[i].sort.Free? || s'.kind[i].sort.Loose?))
    || (s'.kind[i] == s.kind[i] &&
         (s.kind[i].sort.Chunks? ==> s'.d[Page(i)].slab == s.d[Page(i)].slab && Bits(s', i) == Bits(s, i)))
  }

  ghost predicate SameBlocks(s: Pool, s': Pool)
    requires Shape(s) && Shape(s')
  {
    forall a: nat {:trigger SizeAt(s', a)} :: SizeAt(s', a) == SizeAt(s, a)
  }

  lemma UsesFixBlocks(s: Pool, s': Pool)
    requires Shape(s) && Shape(s') && |s'.kind| == |s.kind|
    requires forall i :: 0 <= i < |s.kind| ==> SameUse(s, s', i)
    ensures SameBlocks(s, s')
  {
    forall a: nat ensures SizeAt(s', a) == SizeAt(s, a) {
      if a / PAGE_SIZE < |s.kind| { assert SameUse(s, s', a / PAGE_SIZE); }
    }
  }

  /** Only blocks of page x can differ. */
  lemma UsesFixOtherBlocks(s: Pool, s': Pool, x: nat, a: nat)
    requires Shape(s) && Shape(s') && |s'.kind| == |s.kind|
    requires a / PAGE_SIZE < |s.kind| && a / PAGE_SIZE != x ==> SameUse(s, s', a / PAGE_SIZE)
    requires a / PAGE_SIZE != x
    ensures SizeAt(s', a) == SizeAt(s, a)
  {
  }

  // ----- chunk addresses -----

  lemma MulMono(j: nat, k: nat, p: nat)
    requires j <= k
    ensures j * p <= k * p
  {
  }

  lemma MulDiv(k: nat, p: nat)
    requires p > 0
    ensures (k * p) % p == 0 && (k * p) / p == k
  {
    var a := k * p;
    var q, r := a / p, a % p;
    assert a == p * q + r;
    if k > q {
      MulMono(q + 1, k, p);
    } else if k < q {
      MulMono(k + 1, q, p);
    }
  }

  lemma PageOffset(i: nat, off: nat)
    requires off < PAGE_SIZE
    ensures (i * PAGE_SIZE + off) / PAGE_SIZE == i && (i * PAGE_SIZE + off) % PAGE_SIZE == off
  {
  }

  lemma ChunksFillPage(shift: nat)
    requires shift <= PAGE_SHIFT
    ensures Count(shift) * Pow2(shift) == PAGE_SIZE
  {
    Constants();
    PowAdd(PAGE_SHIFT - shift, shift);
  }

  /** Chunk k of a page lies inside the page. */
  lemma ChunkInPage(shift: nat, k: nat)
    requires shift <= PAGE_SHIFT && k < Count(shift)
    ensures k * Pow2(shift) + Pow2(shift) <= PAGE_SIZE
  {
    ChunksFillPage(shift);
    MulMono(k + 1, Count(shift), Pow2(shift));
    assert (k + 1) * Pow2(shift) == k * Pow2(shift) + Pow2(shift);
  }

  /** The chunk with index k of page i starts at off within the page; the index recovered from there. */
  lemma ChunkAddress(i: nat, shift: nat, k: nat, off: nat)
    requires shift <= PAGE_SHIFT && k < Count(shift) && off == k * Pow2(shift)
    ensures off < PAGE_SIZE && off % Pow2(shift) == 0 && off / Pow2(shift) == k
    ensures (i * PAGE_SIZE + off) / PAGE_SIZE == i && (i * PAGE_SIZE + off) % PAGE_SIZE == off
  {
    ChunkInPage(shift, k);
    MulDiv(k, Pow2(shift));
    PageOffset(i, off);
  }

  /** The block, if any, at chunk k of page i. */
  lemma ChunkSize(s: Pool, i: nat, shift: nat, k: nat, off: nat, a: nat)
    requires Shape(s) && i < |s.kind| && s.kind[i].sort == Chunks(shift) && off / Pow2(shift) == k &&
             off % Pow2(shift) == 0
    requires a / PAGE_SIZE == i && a % PAGE_SIZE == off
    ensures SizeAt(s, a) == if Header(shift) <= k && Used(s.d[Page(i)].slab, Bits(s, i), shift, k) then Pow2(shift)
            else 0
  {
  }

  lemma DivMul(off: nat, p: nat)
    requires p > 0 && off % p == 0
    ensures off == (off / p) * p
  {
  }

  lemma IndexBound(off: nat, shift: nat)
    requires shift <= PAGE_SHIFT && off < PAGE_SIZE && off % Pow2(shift) == 0
    ensures off / Pow2(shift) < Count(shift) && off == (off / Pow2(shift)) * Pow2(shift)
  {
    DivMul(off, Pow2(shift));
    ChunksFillPage(shift);
    var k, p, c := off / Pow2(shift), Pow2(shift), Count(shift);
    if k >= c { MulMono(c, k, p); }
  }

  // ----- what the blocks are -----

  /** A chunk block sits inside its page, behind the page's bitmap. */
  lemma ChunkBlock(s: Pool, a: nat)
    requires Shape(s) && SizeAt(s, a) > 0 && s.kind[a / PAGE_SIZE].sort.Chunks?
    ensures var shift := s.kind[a / PAGE_SIZE].sort.shift;
      && SizeAt(s, a) == Pow2(shift)
      && a % PAGE_SIZE + SizeAt(s, a) <= PAGE_SIZE
      && a % PAGE_SIZE == ((a % PAGE_SIZE) / Pow2(shift)) * Pow2(shift)
      && (shift < EXACT_SHIFT ==> a % PAGE_SIZE >= 8 * MapWords(shift))
  {
    var shift := s.kind[a / PAGE_SIZE].sort.shift;
    var off := a % PAGE_SIZE;
    var k := off / Pow2(shift);
    IndexBound(off, shift);
    ChunkInPage(shift, k);
    MulMono(Header(shift), k, Pow2(shift));
    if shift < EXACT_SHIFT { HeaderIsSource(shift); }
  }

  lemma BlockPages(s: Pool, a: nat)
    requires Shape(s) && SizeAt(s, a) > 0
    ensures a / PAGE_SIZE < |s.kind| && s.kind[a / PAGE_SIZE].start == a / PAGE_SIZE
    ensures a + SizeAt(s, a) <= (a / PAGE_SIZE + s.kind[a / PAGE_SIZE].len) * PAGE_SIZE
  {
    var i := a / PAGE_SIZE;
    if s.kind[i].sort.Chunks? { ChunkBlock(s, a); }
  }

  /** Every live block lies inside the pool and, on a SMALL page, behind the bitmap at its head. */
  lemma BlocksInside(s: Pool, a: nat)
    requires Valid(s) && SizeAt(s, a) > 0
    ensures a + SizeAt(s, a) <= |s.kind| * PAGE_SIZE
    ensures var p := s.kind[a / PAGE_SIZE];
      p.sort.Chunks? && p.sort.shift < EXACT_SHIFT ==> a >= p.start * PAGE_SIZE + 8 * MapWords(p.sort.shift)
  {
    BlockPages(s, a);
    if s.kind[a / PAGE_SIZE].sort.Chunks? { ChunkBlock(s, a); }
  }

  lemma ChunksApart(ka: nat, kb: nat, p: nat, a: nat, b: nat)
    requires a == ka * p && b == kb * p && a < b
    ensures a + p <= b
  {
    if kb <= ka { MulMono(kb, ka, p); } else { MulMono(ka + 1, kb, p); }
  }

  /** Live blocks never overlap. */
  lemma BlocksDisjoint(s: Pool, a: nat, b: nat)
    requires Valid(s) && SizeAt(s, a) > 0 && SizeAt(s, b) > 0 && a < b
    ensures a + SizeAt(s, a) <= b
  {
    BlockPages(s, a);
    BlockPages(s, b);
    var i, j := a / PAGE_SIZE, b / PAGE_SIZE;
    if i == j {
      ChunkBlock(s, a);
      ChunkBlock(s, b);
      var p := Pow2(s.kind[i].sort.shift);
      ChunksApart((a % PAGE_SIZE) / p, (b % PAGE_SIZE) / p, p, a % PAGE_SIZE, b % PAGE_SIZE);
    } else if j < i + s.kind[i].len {
      SamePiece(s.kind, i, j);
    }
  }

  /** Lines 621-753: once every block is freed, the pool is one free run of all its pages. */
  lemma AllFreedIsOneRun(s: Pool)
    requires Valid(s) && |s.kind| > 0
    requires forall a: nat :: SizeAt(s, a) == 0
    ensures s.kind[0] == Piece(0, |s.kind|, Free) && s.free == [0]
    ensures s.d[FreeList].next == Page(0) && s.d[Page(0)].slab == |s.kind|
    ensures forall c :: c in s.partial ==> s.partial[c] == []
  {
    forall i | 0 <= i < |s.kind| ensures s.kind[i].sort.Free? { UnusedPageIsFree(s, i); }
    AllSameRun(s.kind, |s.kind| - 1);
    assert FreeAt(s.kind, 0);
    forall i | i in s.free ensures i == 0 {
      assert FreeAt(s.kind, i);
      AllSameRun(s.kind, i);
    }
    assert 0 in s.free;
    OnlyZero(s.free);
    assert DescOk(s, 0);
    forall c | c in s.partial ensures s.partial[c] == [] {
      assert ClassListed(s, c);
      NoneListed(s, c);
    }
  }

  lemma OnlyZero(l: seq<nat>)
    requires Distinct(l) && 0 in l && forall x :: x in l ==> x == 0
    ensures l == [0]
  {
    if |l| > 1 {
      FirstTwo(l);
      assert false;
    }
  }

  lemma FirstTwo(l: seq<nat>)
    requires Distinct(l) && |l| > 1
    ensures l[0] in l && l[1] in l && l[0] != l[1]
  {
  }

  /** Without a chunk page no page is listed. */
  lemma NoneListed(s: Pool, c: nat)
    requires Shape(s) && c in s.partial && ClassListed(s, c) && forall i :: 0 <= i < |s.kind| ==> s.kind[i].sort.Free?
    ensures s.partial[c] == []
  {
    assert forall k :: 0 <= k < |s.partial[c]| ==> s.partial[c][k] in s.partial[c];
    assert forall i: nat :: i in s.partial[c] ==> Partial(s, c, i);
  }

  lemma UnusedPageIsFree(s: Pool, i: nat)
    requires Valid(s) && i < |s.kind|
    requires forall a: nat :: SizeAt(s, a) == 0
    ensures s.kind[i].sort.Free?
  {
    if s.kind[i].sort.Run? {
      var a := RunHasBlock(s, i);
    } else if s.kind[i].sort.Chunks? {
      assert DescOk(s, i);
      var a := ChunkPageHasBlock(s, i);
    }
  }

  lemma RunHasBlock(s: Pool, i: nat) returns (a: nat)
    requires Shape(s) && i < |s.kind| && s.kind[i].sort.Run?
    ensures SizeAt(s, a) > 0
  {
    var h := s.kind[i].start;
    SamePiece(s.kind, i, h);
    PageOffset(h, 0);
    a := h * PAGE_SIZE;
  }

  lemma ChunkPageHasBlock(s: Pool, i: nat) returns (a: nat)
    requires Shape(s) && i < |s.kind| && s.kind[i].sort.Chunks?
    requires Encoded(s.d[Page(i)].slab, Bits(s, i), s.kind[i].sort.shift) &&
             !Empty(s.d[Page(i)].slab, Bits(s, i), s.kind[i].sort.shift)
    ensures SizeAt(s, a) > 0
  {
    var shift := s.kind[i].sort.shift;
    EmptyIff(s.d[Page(i)].slab, Bits(s, i), shift);
    var k := SomeChunk(s.d[Page(i)].slab, Bits(s, i), shift);
    var off := Offset(k, shift);
    ChunkAddress(i, shift, k, off);
    a := i * PAGE_SIZE + off;
    ChunkSize(s, i, shift, k, off, a);
  }

  /** Where chunk k of a page starts. */
  function Offset(k: nat, shift: nat): nat { k * Pow2(shift) }

  lemma {:induction false} AllSameRun(kind: seq<Piece>, i: nat)
    requires Partition(kind) && Coalesced(kind) && i < |kind| && forall j :: 0 <= j < |kind| ==> kind[j].sort.Free?
    ensures kind[i] == kind[0] && kind[0].start == 0
    ensures i == |kind| - 1 ==> kind[0].len == |kind|
    decreases i
  {
    if i > 0 { AllSameRun(kind, i - 1); }
  }
}
