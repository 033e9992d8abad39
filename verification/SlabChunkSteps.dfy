/**
 From valid state to valid state: handing out and taking back one chunk, and what each
 does to the live blocks.
 */
module SlabChunkSteps {
  import opened Words
  import opened SlabList
  import opened SlabLayout
  import opened SlabPages
  import opened SlabChunks
  import opened SlabClasses
  import opened SlabBlocks
  import opened SlabSteps

  /** The in-page bitmap of page i is replaced; other classes have none. */
  function BitsSet(bits: map<nat, seq<nat>>, i: nat, shift: nat, v: seq<nat>): map<nat, seq<nat>> {
    if shift < EXACT_SHIFT then bits[i := v] else bits
  }

  /** Block addresses of chunk pages. */
  function ChunkAt(i: nat, shift: nat, k: nat): nat { i * PAGE_SIZE + k * Pow2(shift) }

  /** Page i is a chunk page of class c in both pools and only chunk k changes. */
  ghost predicate OneChunk(s: Pool, s': Pool, i: nat, c: nat, k: nat)
    requires Shape(s) && Shape(s')
  {
    && |s'.kind| == |s.kind| && i < |s.kind| && s.kind[i].sort == Chunks(c) && s'.kind == s.kind &&
       Header(c) <= k < Count(c)
    && (forall j: nat :: j != k ==>
         (Used(s'.d[Page(i)].slab, Bits(s', i), c, j) <==> Used(s.d[Page(i)].slab, Bits(s, i), c, j)))
    && (forall j :: 0 <= j < |s.kind| && j != i ==> SameUse(s, s', j))
  }

  lemma OneChunkBlocks(s: Pool, s': Pool, i: nat, c: nat, k: nat, a: nat)
    requires Shape(s) && Shape(s') && OneChunk(s, s', i, c, k) && a != ChunkAt(i, c, k)
    ensures SizeAt(s', a) == SizeAt(s, a)
  {
    if a / PAGE_SIZE == i {
      var off := a % PAGE_SIZE;
      if off % Pow2(c) == 0 {
        IndexBound(off, c);
        assert a == i * PAGE_SIZE + off;
      }
    } else if a / PAGE_SIZE < |s.kind| {
      UsesFixOtherBlocks(s, s', i, a);
    }
  }

  lemma OneChunkSizes(s: Pool, s': Pool, i: nat, c: nat, k: nat)
    requires Shape(s) && Shape(s') && OneChunk(s, s', i, c, k)
    ensures SizeAt(s, ChunkAt(i, c, k)) == if Used(s.d[Page(i)].slab, Bits(s, i), c, k) then Pow2(c) else 0
    ensures SizeAt(s', ChunkAt(i, c, k)) == if Used(s'.d[Page(i)].slab, Bits(s', i), c, k) then Pow2(c) else 0
    ensures forall a: nat {:trigger SizeAt(s', a)} :: a != ChunkAt(i, c, k) ==> SizeAt(s', a) == SizeAt(s, a)
  {
    ChunkSizeAt(s, i, c, k);
    ChunkSizeAt(s', i, c, k);
    forall a: nat | a != ChunkAt(i, c, k) ensures SizeAt(s', a) == SizeAt(s, a) {
      OneChunkBlocks(s, s', i, c, k, a);
    }
  }

  lemma ChunkSizeAt(s: Pool, i: nat, c: nat, k: nat)
    requires Shape(s) && i < |s.kind| && s.kind[i].sort == Chunks(c) && Header(c) <= k < Count(c)
    ensures SizeAt(s, ChunkAt(i, c, k)) == if Used(s.d[Page(i)].slab, Bits(s, i), c, k) then Pow2(c) else 0
  {
    ChunkAddress(i, c, k, k * Pow2(c));
    ChunkSize(s, i, c, k, k * Pow2(c), ChunkAt(i, c, k));
  }

  // ----- handing out a chunk of a listed page -----

  /** Line 218, 262 or 304: the bit of chunk k is set. */
  ghost function Marked(s: Pool, i: nat, c: nat, k: nat): Pool
    requires Page(i) in s.d && (c < EXACT_SHIFT ==> k / WORD < |Bits(s, i)|)
  {
    s.(d := s.d[Page(i) := s.d[Page(i)].(slab := MarkSlab(s.d[Page(i)].slab, c, k))],
       bits := BitsSet(s.bits, i, c, MarkBits(Bits(s, i), c, k)))
  }

  ghost predicate CanMark(s: Pool, i: nat, c: nat, k: nat) {
    Inv(s) && Partial(s, c, i) && k < Count(c) && !Used(s.d[Page(i)].slab, Bits(s, i), c, k)
  }

  lemma MarkedPage(s: Pool, i: nat, c: nat, k: nat)
    requires CanMark(s, i, c, k)
    ensures c < EXACT_SHIFT ==> k / WORD < |Bits(s, i)|
    ensures var s' := Marked(s, i, c, k);
      && Encoded(s'.d[Page(i)].slab, Bits(s', i), c) && Header(c) <= k && !Empty(s'.d[Page(i)].slab, Bits(s', i), c)
      && (forall j: nat :: Used(s'.d[Page(i)].slab, Bits(s', i), c, j) <==>
           j == k || Used(s.d[Page(i)].slab, Bits(s, i), c, j))
  {
    assert DescOk(s, i);
    var slab, bits := s.d[Page(i)].slab, Bits(s, i);
    MarkEncoded(slab, bits, c, k);
    var s' := Marked(s, i, c, k);
    forall j: nat ensures Used(s'.d[Page(i)].slab, Bits(s', i), c, j) <==> j == k || Used(slab, bits, c, j) {
      MarkUsed(slab, bits, c, k, j);
    }
    assert Used(s'.d[Page(i)].slab, Bits(s', i), c, k);
  }

  /** Room is left: the page stays where it is. */
  lemma MarkRoom(s: Pool, i: nat, c: nat, k: nat)
    requires Valid(s) && CanMark(s, i, c, k)
    ensures c < EXACT_SHIFT ==> k / WORD < |Bits(s, i)|
    ensures var s' := Marked(s, i, c, k);
      !Full(s'.d[Page(i)].slab, Bits(s', i), c) ==> Valid(s') && OneChunk(s, s', i, c, k)
  {
    MarkedPage(s, i, c, k);
    var s' := Marked(s, i, c, k);
    if !Full(s'.d[Page(i)].slab, Bits(s', i), c) {
      EditInv(s, s', i, c, s'.d[Page(i)].slab);
      OneChunkFrom(s, s', i, c, k);
    }
  }

  /** No room is left: lines 232-238, 265-271, 307-313. */
  ghost function Filled(s: Pool, i: nat, c: nat, k: nat): Pool
    requires Page(i) in s.d && (c < EXACT_SHIFT ==> k / WORD < |Bits(s, i)|) && c in s.partial && |s.partial[c]| > 0
    requires s.d[Page(i)].prev in s.d && s.d[Page(i)].next in s.d
  {
    var s1 := Marked(s, i, c, k);
    s1.(d := Unlink(s1.d, i)[Page(i) := Desc(s1.d[Page(i)].slab, Null, Null, TagOf(c))],
        partial := s.partial[c := Without(s.partial[c], 0)])
  }

  /** Filled is leaving the list and coming back full. */
  lemma FilledIsAttached(s: Pool, i: nat, c: nat, k: nat)
    requires CanMark(s, i, c, k) && c in s.partial && |s.partial[c]| > 0 && s.partial[c][0] == i
    ensures c < EXACT_SHIFT ==> k / WORD < |Bits(s, i)|
    ensures s.d[Page(i)].prev in s.d && s.d[Page(i)].next in s.d
    ensures var s2, s' := Detach(s, c, 0), Filled(s, i, c, k);
      s' == s2.(d := s2.d[Page(i) := s'.d[Page(i)]], kind := Recast(s2.kind, s2.kind[i], Chunks(c)), bits := s'.bits)
  {
    MarkedPage(s, i, c, k);
    ListedPage(s, c, 0);
    UnlinkDefined(s.d, Slot(c), s.partial[c], TagOf(c), 0);
    if |s.partial[c]| > 1 { assert s.partial[c][1] != s.partial[c][0]; }
    var s1 := Marked(s, i, c, k);
    UnlinkIgnoresSlab(s.d, i, s1.d[Page(i)].slab, Desc(s1.d[Page(i)].slab, Null, Null, TagOf(c)));
    RecastBack(s.kind, i, c);
  }

  lemma MarkLast(s: Pool, i: nat, c: nat, k: nat)
    requires Valid(s) && CanMark(s, i, c, k) && c in s.partial && |s.partial[c]| > 0 && s.partial[c][0] == i
    requires (c < EXACT_SHIFT ==> k / WORD < |Bits(s, i)|) && s.d[Page(i)].prev in s.d && s.d[Page(i)].next in s.d
    requires var s1 := Marked(s, i, c, k); Full(s1.d[Page(i)].slab, Bits(s1, i), c)
    ensures Valid(Filled(s, i, c, k)) && OneChunk(s, Filled(s, i, c, k), i, c, k)
  {
    MarkedPage(s, i, c, k);
    FilledIsAttached(s, i, c, k);
    ListedPage(s, c, 0);
    var s2, s' := Detach(s, c, 0), Filled(s, i, c, k);
    DetachInv(s, c, 0);
    RecastBack(s.kind, i, c);
    AttachFullInv(s2, s', i, c, s'.d[Page(i)]);
    FilledOthers(s, i, c, k);
  }

  lemma FilledOthers(s: Pool, i: nat, c: nat, k: nat)
    requires Valid(s) && CanMark(s, i, c, k) && c in s.partial && |s.partial[c]| > 0 && s.partial[c][0] == i
    requires (c < EXACT_SHIFT ==> k / WORD < |Bits(s, i)|) && s.d[Page(i)].prev in s.d && s.d[Page(i)].next in s.d
    requires Shape(Filled(s, i, c, k))
    ensures NoEmptyChunkPage(Filled(s, i, c, k), -1) && OneChunk(s, Filled(s, i, c, k), i, c, k)
  {
    MarkedPage(s, i, c, k);
    var s', s1 := Filled(s, i, c, k), Marked(s, i, c, k);
    assert s'.d[Page(i)].slab == s1.d[Page(i)].slab && Bits(s', i) == Bits(s1, i);
    OneChunkFrom(s, s', i, c, k);
  }

  lemma OneChunkFrom(s: Pool, s': Pool, i: nat, c: nat, k: nat)
    requires Shape(s) && Shape(s') && s'.kind == s.kind && i < |s.kind| && s.kind[i].sort == Chunks(c) &&
             Header(c) <= k < Count(c)
    requires forall j: nat :: j != k ==>
             (Used(s'.d[Page(i)].slab, Bits(s', i), c, j) <==> Used(s.d[Page(i)].slab, Bits(s, i), c, j))
    requires forall j :: 0 <= j < |s.kind| && j != i ==>
             s'.d[Page(j)].slab == s.d[Page(j)].slab && Bits(s', j) == Bits(s, j)
    requires NoEmptyChunkPage(s, -1)
    ensures OneChunk(s, s', i, c, k) && NoEmptyChunkPage(s', i)
    ensures !Empty(s'.d[Page(i)].slab, Bits(s', i), c) ==> NoEmptyChunkPage(s', -1)
  {
    forall j | 0 <= j < |s.kind| && j != i ensures SameUse(s, s', j) {}
    forall j | 0 <= j < |s'.kind| && s'.kind[j].sort.Chunks? &&
      j != i ensures !Empty(s'.d[Page(j)].slab, Bits(s', j), s'.kind[j].sort.shift) {}
  }

  /** All that handing out chunk k of the first listed page needs. */
  lemma MarkFacts(s: Pool, i: nat, c: nat, k: nat)
    requires Valid(s) && CanMark(s, i, c, k) && c in s.partial && |s.partial[c]| > 0 && s.partial[c][0] == i
    ensures (c < EXACT_SHIFT ==> i in s.bits && k / WORD < |s.bits[i]|) && Page(i) in s.d && s.d[Page(i)].prev in s.d &&
            s.d[Page(i)].next in s.d
    ensures var s1 := Marked(s, i, c, k); var e, b := s1.d[Page(i)], Bits(s1, i);
      var s2 := if IsFull(e.slab, b, c) then Filled(s, i, c, k) else s1;
      Valid(s2) && OneChunk(s, s2, i, c, k) && Used(s2.d[Page(i)].slab, Bits(s2, i), c, k)
  {
    MarkedPage(s, i, c, k);
    FilledIsAttached(s, i, c, k);
    MarkRoom(s, i, c, k);
    var s1 := Marked(s, i, c, k);
    FullIff(s1.d[Page(i)].slab, Bits(s1, i), c);
    if Full(s1.d[Page(i)].slab, Bits(s1, i), c) { MarkLast(s, i, c, k); }
  }

  // ----- taking a chunk back -----

  ghost predicate CanUnmark(s: Pool, i: nat, c: nat, k: nat) {
    Inv(s) && i < |s.kind| && s.kind[i].sort == Chunks(c) && Header(c) <= k < Count(c) &&
      Used(s.d[Page(i)].slab, Bits(s, i), c, k)
  }

  predicate ClearReady(s: Pool, i: nat, c: nat, k: nat) {
    Page(i) in s.d &&
    var slab, bits := s.d[Page(i)].slab, Bits(s, i);
    && (c == EXACT_SHIFT ==> slab >= Pow2(k)) && (c > EXACT_SHIFT ==> slab >= Pow2(MAP_SHIFT + k))
    && (c < EXACT_SHIFT ==> k / WORD < |bits| && bits[k / WORD] >= Pow2(k % WORD))
  }

  /** Line 463, 513 or 552: the bit of chunk k is cleared. */
  ghost function Cleaned(s: Pool, i: nat, c: nat, k: nat): Pool
    requires ClearReady(s, i, c, k)
  {
    s.(d := s.d[Page(i) := s.d[Page(i)].(slab := ClearSlab(s.d[Page(i)].slab, c, k))],
       bits := BitsSet(s.bits, i, c, ClearBits(Bits(s, i), c, k)))
  }

  lemma CleanedPage(s: Pool, i: nat, c: nat, k: nat)
    requires CanUnmark(s, i, c, k)
    ensures ClearReady(s, i, c, k)
    ensures var s' := Cleaned(s, i, c, k);
      && Encoded(s'.d[Page(i)].slab, Bits(s', i), c) && !Full(s'.d[Page(i)].slab, Bits(s', i), c)
      && (forall j: nat :: Used(s'.d[Page(i)].slab, Bits(s', i), c, j) <==>
           j != k && Used(s.d[Page(i)].slab, Bits(s, i), c, j))
  {
    assert DescOk(s, i);
    var slab, bits := s.d[Page(i)].slab, Bits(s, i);
    ClearDefined(slab, bits, c, k);
    ClearEncoded(slab, bits, c, k);
    var s' := Cleaned(s, i, c, k);
    forall j: nat ensures Used(s'.d[Page(i)].slab, Bits(s', i), c, j) <==> j != k && Used(slab, bits, c, j) {
      ClearUsed(slab, bits, c, k, j);
    }
    assert !Used(s'.d[Page(i)].slab, Bits(s', i), c, k);
  }

  /** The state after a chunk's bit was cleared: page i may have become empty. */
  ghost predicate AfterUnmark(s: Pool, s': Pool, i: nat, c: nat, k: nat) {
    Inv(s) && Inv(s') && Partial(s', c, i) && OneChunk(s, s', i, c, k) && NoEmptyChunkPage(s', i)
    && !Used(s'.d[Page(i)].slab, Bits(s', i), c, k)
  }

  /** The page had room already: it stays where it is. */
  lemma UnmarkListed(s: Pool, i: nat, c: nat, k: nat)
    requires Valid(s) && CanUnmark(s, i, c, k) && s.d[Page(i)].next != Null
    ensures ClearReady(s, i, c, k) && AfterUnmark(s, Cleaned(s, i, c, k), i, c, k)
  {
    CleanedPage(s, i, c, k);
    var s' := Cleaned(s, i, c, k);
    EditInv(s, s', i, c, s'.d[Page(i)].slab);
    OneChunkFrom(s, s', i, c, k);
  }

  /** The page was full: lines 451-461, 501-511, 540-550 put it at the head of its list. */
  ghost function Reopened(s: Pool, i: nat, c: nat, k: nat): Pool
    requires ClearReady(s, i, c, k) && c in s.partial && Slot(c) in s.d && s.d[Slot(c)].next in s.d
  {
    var s1 := Cleaned(s, i, c, k);
    s1.(d := PushFront(s1.d, Slot(c), i, TagOf(c)), partial := s.partial[c := [i] + s.partial[c]])
  }

  lemma UnmarkFull(s: Pool, i: nat, c: nat, k: nat)
    requires Valid(s) && CanUnmark(s, i, c, k) && s.d[Page(i)].next == Null
    ensures ClearReady(s, i, c, k) && c in s.partial && Slot(c) in s.d && s.d[Slot(c)].next in s.d
    ensures AfterUnmark(s, Reopened(s, i, c, k), i, c, k)
  {
    CleanedPage(s, i, c, k);
    ReopenedIsAttached(s, i, c, k);
    var s' := Reopened(s, i, c, k);
    var s1 := Cleaned(s, i, c, k);
    assert s'.d[Page(i)].slab == s1.d[Page(i)].slab && Bits(s', i) == Bits(s1, i);
    OneChunkFrom(s, s', i, c, k);
  }

  lemma ReopenedIsAttached(s: Pool, i: nat, c: nat, k: nat)
    requires CanUnmark(s, i, c, k) && s.d[Page(i)].next == Null && ClearReady(s, i, c, k)
    ensures c in s.partial && Slot(c) in s.d && s.d[Slot(c)].next in s.d
    ensures Inv(Reopened(s, i, c, k)) && Partial(Reopened(s, i, c, k), c, i)
  {
    CleanedPage(s, i, c, k);
    var s0 := s.(kind := Recast(s.kind, s.kind[i], Loose));
    DetachFullInv(s, s0, i, c);
    var s1 := Cleaned(s0, i, c, k);
    LooseEdit(s0, s1, i);
    RecastBack(s.kind, i, c);
    LooseUnlisted(s0, i, c);
    AttachInv(s1, i, c);
    AttachAt(s1, i, c, i);
    assert Attach(s1, i, c) == Reopened(s, i, c, k);
  }

  /** A Loose page's slab word and bitmap are free to change. */
  lemma LooseEdit(s: Pool, s': Pool, i: nat)
    requires IsLoosePage(s, i) && Page(i) in s'.d
    requires s' == s.(d := s.d[Page(i) := s.d[Page(i)].(slab := s'.d[Page(i)].slab)], bits := s'.bits)
    requires forall j :: 0 <= j < |s.kind| && j != i ==> Bits(s', j) == Bits(s, j)
    ensures IsLoosePage(s', i)
  {
    assert Shape(s');
    forall j | 0 <= j < |s.kind| ensures DescOk(s', j) {
      assert DescOk(s, j);
      if j != i { SamePage(s, s', j); }
    }
    forall j | FreeAt(s.kind, j) ensures SameLinks(s.d, s'.d, Page(j)) {}
    FreeListFrame(s, s');
    forall c | c in s'.partial ensures ClassListed(s', c) {
      assert ClassListed(s, c);
      ClassFrame(s, s', c);
    }
  }

  // ----- the last chunk of a page was taken back -----

  /** Line 682 and 688-692 of ngx_slab_free_pages on an empty, listed chunk page. */
  ghost function Vacated(s: Pool, c: nat, pos: nat): Pool
    requires CanDetach(s, c, pos)
  {
    ListedPage(s, c, pos);
    var i, s2 := s.partial[c][pos], Detach(s, c, pos);
    s2.(d := s2.d[Page(i) := s2.d[Page(i)].(slab := 1)])
  }

  /** The length is written before the page is unlinked. */
  lemma VacatedStore(s: Pool, c: nat, pos: nat)
    requires CanDetach(s, c, pos)
    ensures var i := s.partial[c][pos];
      && Page(i) in s.d && s.d[Page(i)].prev in s.d && s.d[Page(i)].next in s.d && i < |s.kind|
      && Vacated(s, c, pos).d == Unlink(s.d[Page(i) := s.d[Page(i)].(slab := 1)], i)
  {
    ListedPage(s, c, pos);
    var i, l := s.partial[c][pos], s.partial[c];
    UnlinkDefined(s.d, Slot(c), l, TagOf(c), pos);
    if pos > 0 { assert l[pos-1] != l[pos]; }
    if pos + 1 < |l| { assert l[pos] != l[pos+1]; }
    UnlinkIgnoresSlab(s.d, i, 1, s.d[Page(i)].(slab := 1));
  }

  lemma VacatedMoving(s: Pool, c: nat, pos: nat)
    requires CanDetach(s, c, pos) && Coalesced(s.kind) && NoLoose(s) && NoEmptyChunkPage(s, s.partial[c][pos])
    ensures Moving(Vacated(s, c, pos), s.partial[c][pos])
  {
    ListedPage(s, c, pos);
    DetachInv(s, c, pos);
    var i, s2, s3 := s.partial[c][pos], Detach(s, c, pos), Vacated(s, c, pos);
    RecastBack(s.kind, i, c);
    LooseEdit(s2, s3, i);
    VacatedUse(s, s3, i);
  }

  /** The other chunk pages hold what they held. */
  lemma VacatedUse(s: Pool, s': Pool, i: nat)
    requires Shape(s) && Shape(s') && NoEmptyChunkPage(s, i) && i < |s.kind| && s'.bits == s.bits
    requires s'.kind == Recast(s.kind, s.kind[i], Loose) && s.kind[i] == Piece(i, 1, s.kind[i].sort)
    requires forall j :: 0 <= j < |s.kind| && j != i ==> s'.d[Page(j)].slab == s.d[Page(j)].slab
    ensures NoEmptyChunkPage(s', -1)
  {
    forall j | 0 <= j < |s'.kind| && s'.kind[j].sort.Chunks?
      ensures !Empty(s'.d[Page(j)].slab, Bits(s', j), s'.kind[j].sort.shift)
    {
      assert s'.kind[j] == s.kind[j] && j != i;
    }
  }

  lemma VacatedBlocks(s: Pool, s': Pool, i: nat, c: nat)
    requires Shape(s) && Shape(s') && i < |s.kind| && s.kind[i] == Piece(i, 1, Chunks(c)) &&
             s'.kind == Recast(s.kind, s.kind[i], Loose)
    requires Empty(s.d[Page(i)].slab, Bits(s, i), c) && s'.bits == s.bits
    requires forall j :: 0 <= j < |s.kind| && j != i ==> s'.d[Page(j)].slab == s.d[Page(j)].slab
    ensures SameBlocks(s, s')
  {
    forall a: nat ensures SizeAt(s', a) == SizeAt(s, a) {
      var j := a / PAGE_SIZE;
      if j == i {
        var off := a % PAGE_SIZE;
        if off % Pow2(c) == 0 { IndexBound(off, c); }
      } else if j < |s.kind| {
        assert SameUse(s, s', j);
      }
    }
  }

  // ----- a new chunk page -----

  /** The head of a list may hold anything in `prev`. */
  lemma HeadScratch(s: Pool, s': Pool, c: nat, q: Ref, t: Tag)
    requires Inv(s) && Slot(c) in s.d && s' == s.(d := s.d[Slot(c) := s.d[Slot(c)].(prev := q, tag := t)])
    ensures Inv(s')
  {
    assert Shape(s');
    forall j | 0 <= j < |s.kind| ensures DescOk(s', j) {
      assert DescOk(s, j);
      SamePage(s, s', j);
    }
    FreeListFrame(s, s');
    forall b | b in s'.partial ensures ClassListed(s', b) {
      assert ClassListed(s, b);
      ClassFrame(s, s', b);
    }
  }

  /** Lines 344-356, 365-369, 378-382: page x becomes the only listed page of class c. */
  ghost function Opened(s: Pool, x: nat, c: nat): Pool
    requires Page(x) in s.d && Slot(c) in s.d && x < |s.kind|
  {
    var d1 := s.d[Page(x) := Desc(FreshSlab(c), Slot(c), Slot(c), TagOf(c))];
    s.(d := d1[Slot(c) := d1[Slot(c)].(next := Page(x))], bits := BitsSet(s.bits, x, c, FreshBits(c)),
       kind := Recast(s.kind, s.kind[x], Chunks(c)), partial := s.partial[c := [x]])
  }

  /** The page between its allocation and its listing. */
  ghost function Unopened(s: Pool, x: nat, c: nat): Pool
    requires Page(x) in s.d && x < |s.kind|
  {
    s.(d := s.d[Page(x) := s.d[Page(x)].(slab := FreshSlab(c))], bits := BitsSet(s.bits, x, c, FreshBits(c)),
       kind := Recast(s.kind, s.kind[x], Loose))
  }

  lemma UnopenedReady(s: Pool, x: nat, c: nat)
    requires Valid(s) && IsHead(s.kind, x) && s.kind[x] == Piece(x, 1, Run) && IsClass(s, c)
    ensures Page(x) in s.d && CanAttach(Unopened(s, x, c), x, c)
  {
    var s2 := s.(kind := Recast(s.kind, s.kind[x], Loose));
    UnlistedInv(s, s2, x, Loose);
    LooseEdit(s2, Unopened(s, x, c), x);
    FreshEncodedAny(c, Bits(Unopened(s, x, c), x));
  }

  lemma OpenedInv(s: Pool, x: nat, c: nat)
    requires Valid(s) && IsHead(s.kind, x) && s.kind[x] == Piece(x, 1, Run) && c in s.partial && s.partial[c] == []
    ensures Page(x) in s.d && Slot(c) in s.d && Inv(Opened(s, x, c))
  {
    UnopenedReady(s, x, c);
    var s3 := Unopened(s, x, c);
    LooseUnlisted(s3, x, c);
    AttachInv(s3, x, c);
    assert ClassListed(s, c);
    OpenedIsAttached(s, x, c);
    HeadScratch(Attach(s3, x, c), Opened(s, x, c), c, s.d[Slot(c)].prev, s.d[Slot(c)].tag);
  }

  lemma OpenedIsAttached(s: Pool, x: nat, c: nat)
    requires Shape(s) && x < |s.kind| && s.kind[x] == Piece(x, 1, Run) && c in s.partial && s.partial[c] == []
    requires ListAt(s.d, Slot(c), [], TagOf(c)) && CanAttach(Unopened(s, x, c), x, c)
    ensures var s4 := Attach(Unopened(s, x, c), x, c);
      Slot(c) in s4.d && Opened(s, x,
          c) == s4.(d := s4.d[Slot(c) := s4.d[Slot(c)].(prev := s.d[Slot(c)].prev, tag := s.d[Slot(c)].tag)])
  {
    RecastTwice(s.kind, x, c);
    assert [x] + [] == [x];
  }

  lemma FreshEncodedAny(c: nat, bits: seq<nat>)
    requires 3 <= c < PAGE_SHIFT && (c < EXACT_SHIFT ==> bits == FreshBits(c))
    ensures Encoded(FreshSlab(c), bits, c) && !Full(FreshSlab(c), bits, c)
    ensures forall k: nat :: Used(FreshSlab(c), bits, c, k) <==> k <= Header(c)
  {
    FreshEncoded(c);
    FreshHasRoom(c);
    forall k: nat ensures Used(FreshSlab(c), bits, c, k) <==> k <= Header(c) { FreshUsed(c, k); }
    assert !Used(FreshSlab(c), bits, c, Header(c) + 1);
  }

  lemma RecastTwice(kind: seq<Piece>, x: nat, c: nat)
    requires Partition(kind) && x < |kind| && kind[x] == Piece(x, 1, Run)
    ensures Recast(Recast(kind, kind[x], Loose), Piece(x, 1, Loose), Chunks(c)) == Recast(kind, kind[x], Chunks(c))
    ensures Recast(kind, kind[x], Loose)[x] == Piece(x, 1, Loose)
  {
    var r := Recast(kind, kind[x], Loose);
    forall j | 0 <= j < |kind| ensures Recast(r, Piece(x, 1, Loose), Chunks(c))[j] == Recast(kind, kind[x],
        Chunks(c))[j] {
      if kind[j] == Piece(x, 1, Loose) { SamePiece(kind, j, x); }
    }
  }

  lemma OpenedValid(s: Pool, x: nat, c: nat)
    requires Valid(s) && IsHead(s.kind, x) && s.kind[x] == Piece(x, 1, Run) && c in s.partial && s.partial[c] == []
    ensures Page(x) in s.d && Slot(c) in s.d && Valid(Opened(s, x, c))
  {
    OpenedInv(s, x, c);
    var s' := Opened(s, x, c);
    FreshEncodedAny(c, Bits(s', x));
    FreshHasRoom(c);
    assert Used(s'.d[Page(x)].slab, Bits(s', x), c, Header(c));
    OpenedUse(s, s', x, c);
    OpenedKinds(s.kind, x, c);
  }

  lemma OpenedKinds(kind: seq<Piece>, x: nat, c: nat)
    requires x < |kind| && kind[x].sort.Run? && Coalesced(kind) && forall i :: 0 <= i < |kind| ==> !kind[i].sort.Loose?
    ensures var kind' := Recast(kind, kind[x], Chunks(c));
      Coalesced(kind') && forall i :: 0 <= i < |kind'| ==> !kind'[i].sort.Loose?
  {
  }

  /** The other chunk pages hold what they held, and page x its first chunk. */
  lemma OpenedUse(s: Pool, s': Pool, x: nat, c: nat)
    requires Shape(s) && Shape(s') && NoEmptyChunkPage(s, -1) && x < |s.kind| && s.kind[x] == Piece(x, 1, Run)
    requires s'.kind == Recast(s.kind, s.kind[x], Chunks(c)) && 3 <= c < PAGE_SHIFT
    requires !Empty(s'.d[Page(x)].slab, Bits(s', x), c)
    requires forall j :: 0 <= j < |s.kind| && j != x ==>
      s'.d[Page(j)].slab == s.d[Page(j)].slab && Bits(s', j) == Bits(s, j)
    ensures NoEmptyChunkPage(s', -1)
  {
    forall j | 0 <= j < |s'.kind| && s'.kind[j].sort.Chunks?
      ensures !Empty(s'.d[Page(j)].slab, Bits(s', j), s'.kind[j].sort.shift)
    {
      if j != x { assert s'.kind[j] == s.kind[j]; }
    }
  }

  /** The only block of a page whose bitmap holds its header and the first chunk. */
  lemma FreshPageBlocks(s: Pool, x: nat, c: nat, a: nat)
    requires Shape(s) && x < |s.kind| && s.kind[x].sort == Chunks(c) && a / PAGE_SIZE == x
    requires forall k: nat :: Used(s.d[Page(x)].slab, Bits(s, x), c, k) <==> k <= Header(c)
    ensures SizeAt(s, a) == if a == ChunkAt(x, c, Header(c)) then Pow2(c) else 0
  {
    FreshHasRoom(c);
    ChunkSizeAt(s, x, c, Header(c));
    var off := a % PAGE_SIZE;
    assert a == x * PAGE_SIZE + off;
    if off % Pow2(c) == 0 {
      IndexBound(off, c);
      assert SizeAt(s, a) > 0 ==> off / Pow2(c) == Header(c);
    }
  }

  lemma OpenedBlocks(s: Pool, x: nat, c: nat, a: nat)
    requires Shape(s) && IsHead(s.kind, x) && s.kind[x] == Piece(x, 1, Run) && IsClass(s, c) && Slot(c) in s.d &&
             Shape(Opened(s, x, c))
    ensures ChunkAt(x, c, Header(c)) / PAGE_SIZE == x
    ensures a / PAGE_SIZE == x ==> SizeAt(Opened(s, x, c), a) == if a == ChunkAt(x, c, Header(c)) then Pow2(c) else 0
    ensures a / PAGE_SIZE != x ==> SizeAt(Opened(s, x, c), a) == SizeAt(s, a)
  {
    var s' := Opened(s, x, c);
    FreshHasRoom(c);
    ChunkAddress(x, c, Header(c), Header(c) * Pow2(c));
    if a / PAGE_SIZE == x {
      FreshEncodedAny(c, Bits(s', x));
      FreshPageBlocks(s', x, c, a);
    } else if a / PAGE_SIZE < |s.kind| {
      UsesFixOtherBlocks(s, s', x, a);
    }
  }

  lemma OpenedAll(s0: Pool, s1: Pool, x: nat, c: nat)
    requires Shape(s0) && Shape(s1) && FreeAt(s0.kind, x) && IsHead(s1.kind, x) && s1.kind[x] == Piece(x, 1, Run) &&
             IsClass(s1, c)
    requires Slot(c) in s1.d && Shape(Opened(s1, x, c))
    requires forall b: nat {:trigger SizeAt(s1, b)} :: b != x * PAGE_SIZE ==> SizeAt(s1, b) == SizeAt(s0, b)
    ensures var a := ChunkAt(x, c, Header(c));
      && SizeAt(s0, a) == 0
      && forall b: nat {:trigger SizeAt(Opened(s1, x, c), b)} ::
           SizeAt(Opened(s1, x, c), b) == if b == a then Pow2(c) else SizeAt(s0, b)
  {
    var a := ChunkAt(x, c, Header(c));
    OpenedBlocks(s1, x, c, a);
    forall b: nat ensures SizeAt(Opened(s1, x, c), b) == if b == a then Pow2(c) else SizeAt(s0, b) {
      OpenedBlocks(s1, x, c, b);
      if b / PAGE_SIZE != x { PageOffset(x, 0); }
    }
  }
}
