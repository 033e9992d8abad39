/**
 The layout of a slab pool: which pages are free, allocated as page runs, or cut into
 chunks, and what the descriptors and bitmaps must then contain.
 */
module SlabLayout {
  import opened Words
  import opened SlabList

  // 64-bit words, 4096-byte pages (ngx_pagesize_shift == 12): ngx_slab_exact_shift == 6
  const PAGE_SHIFT: nat := 12
  const PAGE_SIZE: nat := 4096
  const MAX_SIZE: nat := 2048
  const EXACT_SHIFT: nat := 6
  const WORD: nat := 64
  const MAP_SHIFT: nat := 32
  const MAP_UNIT: nat := 0x1_0000_0000
  const BUSY: nat := 0xffff_ffff_ffff_ffff
  const PAGE_START: nat := 0x8000_0000_0000_0000

  /** What a piece of the page array is used for; Loose pages are being moved between the other uses. */
  datatype Sort = Free | Run | Chunks(shift: nat) | Loose

  /** Pages start .. start + len - 1 used together. */
  datatype Piece = Piece(start: nat, len: nat, sort: Sort)

  predicate Covers(p: Piece, i: int) { p.start <= i < p.start + p.len }

  /** kind[i] is the piece that page i belongs to. */
  ghost predicate Partition(kind: seq<Piece>) {
    && (forall i {:trigger kind[i]} :: 0 <= i < |kind| ==> kind[i].start <= i < kind[i].start + kind[i].len <= |kind|)
    && (forall i, j {:trigger Covers(kind[i], j)} :: 0 <= i < |kind| && Covers(kind[i], j) ==> kind[j] == kind[i])
    && (forall i :: 0 <= i < |kind| && kind[i].sort.Chunks? ==>
         kind[i].len == 1 && 3 <= kind[i].sort.shift < PAGE_SHIFT)
  }

  /** No two adjacent free pieces. */
  ghost predicate Coalesced(kind: seq<Piece>) {
    forall i :: 0 <= i < |kind| - 1 && kind[i].sort.Free? && kind[i+1].sort.Free? ==> kind[i] == kind[i+1]
  }

  predicate IsHead(kind: seq<Piece>, i: int) { 0 <= i < |kind| && kind[i].start == i }

  /** A free piece starts at page i. */
  predicate FreeAt(kind: seq<Piece>, i: int) { IsHead(kind, i) && kind[i].sort.Free? }

  // ----- chunk pages -----

  /** NGX_SLAB_SMALL pages keep their bitmap in the page, EXACT in the slab word, BIG in its high half. */
  function TagOf(shift: nat): Tag {
    if shift < EXACT_SHIFT then SmallTag else if shift == EXACT_SHIFT then ExactTag else BigTag
  }

  /** Chunks of size 2^shift in a page. */
  function Count(shift: nat): nat
    requires shift <= PAGE_SHIFT
  {
    Pow2(PAGE_SHIFT - shift)
  }

  /** Chunks taken by the in-page bitmap: (1 << (pagesize_shift - shift)) / 8 / (1 << shift), at least 1. */
  function Header(shift: nat): nat {
    if shift >= EXACT_SHIFT then 0
    else if shift == 3 then 8 else if shift == 4 then 2 else 1
  }

  /** Words of the in-page bitmap: (1 << (pagesize_shift - shift)) / 64. */
  function MapWords(shift: nat): nat {
    if shift == 3 then 8 else if shift == 4 then 4 else 2
  }

  /** Is chunk k marked in the bitmap of a page of class shift? */
  predicate Used(slab: nat, bits: seq<nat>, shift: nat, k: nat) {
    if shift < EXACT_SHIFT then k / WORD < |bits| && Bit(bits[k / WORD], k % WORD)
    else if shift == EXACT_SHIFT then Bit(slab, k)
    else Bit(slab, MAP_SHIFT + k)
  }

  /** The bitmap words are in range and the bits of the bitmap's own chunks are set. */
  ghost predicate Encoded(slab: nat, bits: seq<nat>, shift: nat)
    requires 3 <= shift < PAGE_SHIFT
  {
    && (shift < EXACT_SHIFT ==> slab == shift && |bits| == MapWords(shift) && forall w :: 0 <= w < |bits| ==>
         bits[w] <= BUSY)
    && (shift == EXACT_SHIFT ==> slab <= BUSY)
    && (shift > EXACT_SHIFT ==> slab % MAP_UNIT == shift && slab / MAP_UNIT < Pow2(Count(shift)))
    && (forall k :: 0 <= k < Header(shift) ==> Used(slab, bits, shift, k))
  }

  /** Every chunk is in use: the page is on no list. */
  ghost predicate Full(slab: nat, bits: seq<nat>, shift: nat)
    requires shift <= PAGE_SHIFT
  {
    forall k :: 0 <= k < Count(shift) ==> Used(slab, bits, shift, k)
  }

  /** No chunk beyond the bitmap's own is in use. */
  ghost predicate Empty(slab: nat, bits: seq<nat>, shift: nat)
    requires shift <= PAGE_SHIFT
  {
    forall k :: Header(shift) <= k < Count(shift) ==> !Used(slab, bits, shift, k)
  }

  // ----- the whole pool -----

  /** Descriptors, in-page bitmaps, and the ghost layout they represent. */
  datatype Pool = Pool(d: Store, bits: map<nat, seq<nat>>, minShift: nat,
                       kind: seq<Piece>, free: seq<nat>, partial: map<nat, seq<nat>>)

  function Bits(s: Pool, i: nat): seq<nat> { if i in s.bits then s.bits[i] else [] }

  predicate IsClass(s: Pool, shift: nat) { s.minShift <= shift < PAGE_SHIFT }

  ghost predicate Shape(s: Pool) {
    && 3 <= s.minShift < PAGE_SHIFT
    && |s.kind| < PAGE_START - 1
    && (forall i :: 0 <= i < |s.kind| ==> Page(i) in s.d)
    && (forall c :: c in s.partial <==> IsClass(s, c))
    && Null !in s.d
    && Partition(s.kind)
    && (forall i :: 0 <= i < |s.kind| && s.kind[i].sort.Chunks? ==> IsClass(s, s.kind[i].sort.shift))
  }

  /**
   Descriptor i of a free piece p: the head holds the length, the last page points back
   to the head unless it is the last page of the pool (of n pages).
   */
  predicate FreeDesc(e: Desc, p: Piece, i: nat, n: nat) {
    e.tag == PageTag &&
    if i == p.start then e.slab == p.len && e.next != Null
    else e.slab == 0 && e.next == Null && (i == p.start + p.len - 1 < n - 1 ==> e.prev == Page(p.start))
  }

  /** Descriptor i of an allocated page run p. */
  predicate RunDesc(e: Desc, p: Piece, i: nat) {
    e.tag == PageTag && e.next == Null && e.slab == (if i == p.start then PAGE_START + p.len else BUSY)
  }

  ghost predicate ChunkDesc(e: Desc, bits: seq<nat>, shift: nat)
    requires 3 <= shift < PAGE_SHIFT
  {
    e.tag == TagOf(shift) && Encoded(e.slab, bits, shift) && (e.next == Null <==> Full(e.slab, bits, shift))
  }

  ghost predicate DescOk(s: Pool, i: nat)
    requires i < |s.kind| && Page(i) in s.d
  {
    var p := s.kind[i];
    match p.sort
    case Free => FreeDesc(s.d[Page(i)], p, i, |s.kind|)
    case Run => RunDesc(s.d[Page(i)], p, i)
    case Chunks(shift) => 3 <= shift < PAGE_SHIFT && ChunkDesc(s.d[Page(i)], Bits(s, i), shift)
    case Loose => true
  }

  ghost predicate DescsOk(s: Pool)
    requires Shape(s)
  {
    forall i :: 0 <= i < |s.kind| ==> DescOk(s, i)
  }

  /** Is page i a chunk page of class c with room left?  (Its descriptor is then linked.) */
  ghost predicate Partial(s: Pool, c: nat, i: nat)
    requires Shape(s)
  {
    i < |s.kind| && s.kind[i].sort == Chunks(c) && s.d[Page(i)].next != Null
  }

  /** The free list holds exactly the heads of free pieces. */
  ghost predicate FreeListed(s: Pool) {
    && ListAt(s.d, FreeList, s.free, PageTag)
    && forall i :: i in s.free <==> FreeAt(s.kind, i)
  }

  /** The list of class c holds exactly the partly used pages of the class. */
  ghost predicate ClassListed(s: Pool, c: nat)
    requires Shape(s) && c in s.partial
  {
    && ListAt(s.d, Slot(c), s.partial[c], TagOf(c))
    && forall i :: i in s.partial[c] <==> Partial(s, c, i)
  }

  ghost predicate Listed(s: Pool)
    requires Shape(s)
  {
    FreeListed(s) && forall c :: c in s.partial ==> ClassListed(s, c)
  }

  /** Kept by every intermediate step. */
  ghost predicate Inv(s: Pool) {
    Shape(s) && DescsOk(s) && Listed(s)
  }

  /** A chunk page whose last chunk was freed has been given back. */
  ghost predicate NoEmptyChunkPage(s: Pool, except: int)
    requires Shape(s)
  {
    forall i :: 0 <= i < |s.kind| && s.kind[i].sort.Chunks? && i != except ==>
      !Empty(s.d[Page(i)].slab, Bits(s, i), s.kind[i].sort.shift)
  }

  ghost predicate NoLoose(s: Pool) {
    forall i :: 0 <= i < |s.kind| ==> !s.kind[i].sort.Loose?
  }

  /** The state between two calls. */
  ghost predicate Valid(s: Pool) {
    Inv(s) && Coalesced(s.kind) && NoLoose(s) && NoEmptyChunkPage(s, -1)
  }
}
