/**
 The slab allocator of src/core/ngx_slab.c: a pool of 4096-byte pages serving page runs
 and power-of-two chunks.  Addresses are offsets from pool->start.
 */
module Slab {
  import opened Words
  import opened SlabList
  import opened SlabLayout
  import opened SlabPages
  import opened SlabChunks
  import opened SlabClasses
  import opened SlabBlocks
  import opened SlabSteps
  import opened SlabChunkSteps

  /** No free run of at least m pages. */
  ghost predicate NoRunOf(kind: seq<Piece>, m: nat) {
    forall i :: FreeAt(kind, i) ==> kind[i].len < m
  }

  /** No free run of at least size bytes. */
  ghost predicate NoRunFor(kind: seq<Piece>, size: nat) {
    forall i :: FreeAt(kind, i) ==> kind[i].len * PAGE_SIZE < size
  }

  /** x is the first run of the free list that has m pages. */
  ghost predicate FirstFit(kind: seq<Piece>, free: seq<nat>, m: nat, x: nat) {
    exists k :: 0 <= k < |free| && free[k] == x < |kind| && kind[x].len >= m && Shorter(kind, free, m, k)
  }

  /** The first k runs of the free list have less than m pages. */
  ghost predicate Shorter(kind: seq<Piece>, free: seq<nat>, m: nat, k: int) {
    forall j :: 0 <= j < k && j < |free| ==> free[j] < |kind| && kind[free[j]].len < m
  }

  lemma NoPageIff(s: Pool)
    requires Inv(s)
    ensures NoRunOf(s.kind, 1) <==> s.free == []
  {
    if s.free != [] { FreeHead(s, 0); assert FreeAt(s.kind, s.free[0]); }
  }

  /** The smallest class from c on whose chunks hold `size` bytes. */
  function ClassOf(size: nat, c: nat): nat
    decreases PAGE_SHIFT - c
  {
    if c >= PAGE_SHIFT - 1 || size <= Pow2(c) then c else ClassOf(size, c + 1)
  }

  lemma {:induction false} SmallestIsClass(size: nat, m: nat, c: nat)
    requires m <= c < PAGE_SHIFT && size <= Pow2(c) && (c > m ==> Pow2(c - 1) < size)
    ensures ClassOf(size, m) == c
    decreases c - m
  {
    if m < c {
      PowMono(m, c - 1);
      SmallestIsClass(size, m + 1, c);
    }
  }

  /** Lines 181-190: the size class of a request below half a page. */
  method SizeClass(size: nat, minShift: nat) returns (shift: nat)
    requires 3 <= minShift < PAGE_SHIFT && size < MAX_SIZE
    ensures shift == ClassOf(size, minShift)
    ensures minShift <= shift < PAGE_SHIFT && size <= Pow2(shift) && (shift > minShift ==> Pow2(shift - 1) < size)
  {
    if size > Pow2(minShift) {
      shift := 1;
      var s := size - 1;
      ghost var t := s;
      s := s / 2;
      while s != 0
        invariant shift >= 1 && t >= 1 && s == t / 2
        invariant t * Pow2(shift - 1) <= size - 1 < (t + 1) * Pow2(shift - 1)
        decreases s
      {
        assert Pow2(shift) == 2 * Pow2(shift - 1);
        Halve(t, s, Pow2(shift - 1), size - 1);
        t := s;
        s := s / 2;
        shift := shift + 1;
      }
      assert t == 1;
      assert Pow2(shift) == 2 * Pow2(shift - 1);
      SmallPowers();
      assert Pow2(11) == MAX_SIZE by { PowAdd(8, 3); }
      if shift > 11 { PowMono(11, shift - 1); }
      if shift <= minShift { PowMono(shift, minShift); }
      SmallestIsClass(size, minShift, shift);
    } else {
      shift := minShift;
    }
  }

  lemma Halve(t: nat, s: nat, p: nat, v: nat)
    requires s == t / 2 && t * p <= v < (t + 1) * p
    ensures s * (2 * p) <= v < (s + 1) * (2 * p)
  {
    MulMono(2 * s, t, p);
    MulMono(t + 1, 2 * (s + 1), p);
    assert s * (2 * p) == (2 * s) * p && (s + 1) * (2 * p) == (2 * (s + 1)) * p;
  }

  /** Lines 209-216, 257-260, 296-302: the first clear bit of the page's bitmap. */
  method FirstRoom(slab: nat, bits: seq<nat>, shift: nat) returns (k: nat)
    requires 3 <= shift < PAGE_SHIFT && Encoded(slab, bits, shift) && !Full(slab, bits, shift)
    ensures k < Count(shift) && !Used(slab, bits, shift, k)
    ensures forall j :: 0 <= j < k ==> Used(slab, bits, shift, j)
  {
    k := 0;
    if shift < EXACT_SHIFT {
      k := FirstRoomSmall(bits, slab, shift);
    } else {
      ghost var z :| 0 <= z < Count(shift) && !Used(slab, bits, shift, z);
      while Used(slab, bits, shift, k)
        invariant k <= z
        invariant forall j :: 0 <= j < k ==> Used(slab, bits, shift, j)
        decreases z - k
      {
        k := k + 1;
      }
    }
  }

  method FirstRoomSmall(bits: seq<nat>, ghost slab: nat, shift: nat) returns (k: nat)
    requires 3 <= shift < EXACT_SHIFT && Encoded(slab, bits, shift) && !Full(slab, bits, shift)
    ensures k < Count(shift) && !Used(slab, bits, shift, k)
    ensures forall j :: 0 <= j < k ==> Used(slab, bits, shift, j)
  {
    ghost var z :| 0 <= z < Count(shift) && !Used(slab, bits, shift, z);
    Counts(shift);
    var n := 0;
    while bits[n] == BUSY
      invariant 0 <= n < |bits| && n * WORD <= z
      invariant forall j :: 0 <= j < n * WORD ==> Used(slab, bits, shift, j)
      decreases |bits| - n
    {
      forall j | n * WORD <= j < (n + 1) * WORD ensures Used(slab, bits, shift, j) { WordOnes(j % WORD); }
      n := n + 1;
    }
    var i := FirstClear(bits[n]);
    k := n * WORD + i;
    forall j | n * WORD <= j < k ensures Used(slab, bits, shift, j) { UsedInWord(slab, bits, shift, n, j - n * WORD); }
    UsedInWord(slab, bits, shift, n, i);
  }

  lemma UsedInWord(slab: nat, bits: seq<nat>, shift: nat, n: nat, i: nat)
    requires shift < EXACT_SHIFT && n < |bits| && i < WORD
    ensures Used(slab, bits, shift, n * WORD + i) <==> Bit(bits[n], i)
  {
  }

  /** Lines 213-216 */
  method FirstClear(w: nat) returns (i: nat)
    requires w < BUSY
    ensures i < WORD && !Bit(w, i) && forall j :: 0 <= j < i ==> Bit(w, j)
  {
    ghost var y := WordClearBit(w);
    i := 0;
    while Bit(w, i)
      invariant 0 <= i <= y && forall j :: 0 <= j < i ==> Bit(w, j)
      decreases y - i
    {
      i := i + 1;
    }
  }

  /** Pages for a request of at least half a page, lines 168-169. */
  function PagesFor(size: nat): nat {
    size / PAGE_SIZE + if size % PAGE_SIZE != 0 then 1 else 0
  }

  /** The least number of pages that hold the size. */
  lemma PagesForExact(size: nat)
    ensures size <= PagesFor(size) * PAGE_SIZE < size + PAGE_SIZE
    ensures forall n: nat {:trigger n * PAGE_SIZE} :: n < PagesFor(size) <==> n * PAGE_SIZE < size
  {
  }

  class SlabPool {
    const pages: nat          // pool->last - pool->pages
    const minShift: nat       // pool->min_shift
    const extent: nat         // pool->end - pool->start
    var d: Store              // page descriptors, slots and pool->free
    var bits: map<nat, seq<nat>>  // bitmaps at the head of SMALL pages
    ghost var kind: seq<Piece>
    ghost var free: seq<nat>
    ghost var partial: map<nat, seq<nat>>

    ghost function View(): Pool
      reads this
    {
      Pool(d, bits, minShift, kind, free, partial)
    }

    ghost predicate Ok()
      reads this
    {
      Valid(View()) && Sized()
    }

    ghost predicate Sized()
      reads this
    {
      |kind| == pages > 0 && pages * PAGE_SIZE <= extent
    }

    /** ngx_slab_alloc_pages, lines 621-672: first fit in the free list. */
    method AllocPages(m: nat) returns (ok: bool, x: nat)
      requires Ok() && m > 0
      modifies this
      ensures Ok()
      ensures !ok <==> NoRunOf(old(kind), m)
      ensures !ok ==> View() == old(View())
      ensures ok ==> FirstFit(old(kind), old(free), m, x) && IsHead(kind, x) && kind[x] == Piece(x, m, Run)
      ensures ok ==> FreeAt(old(kind), x) && partial == old(partial) && bits == old(bits)
      ensures ok ==> old(SizeAt(View(), x * PAGE_SIZE)) == 0 && SizeAt(View(), x * PAGE_SIZE) == m * PAGE_SIZE
      ensures ok ==> forall a: nat {:trigger SizeAt(View(), a)} :: a != x * PAGE_SIZE ==>
              SizeAt(View(), a) == old(SizeAt(View(), a))
    {
      var page := d[FreeList].next;
      ghost var k := 0;
      x := 0;
      while page != FreeList
        invariant View() == old(View()) && Ok()
        invariant 0 <= k <= |free| && page == NodeAt(FreeList, free, k)
        invariant Shorter(kind, free, m, k)
        decreases |free| - k
      {
        FreeHead(View(), k);
        UnlinkDefined(d, FreeList, free, PageTag, k);
        if d[page].slab >= m {
          x := page.i;
          assert free[k] == x && kind[x].len >= m;
          TakeRun(x, m, k);
          assert FreeAt(old(kind), x);
          ok := true;
          return;
        }
        page := d[page].next;
        k := k + 1;
      }
      forall i | FreeAt(kind, i) ensures kind[i].len < m {
        assert i in free;
        var j :| 0 <= j < |free| && free[j] == i;
      }
      ok := false;
    }

    /** Lines 630-660: m pages from the front of the free run x become an allocated run. */
    method TakeRun(x: nat, m: nat, ghost k: nat)
      requires Ok() && k < |free| && x == free[k] && FreeAt(kind, x) && 0 < m <= kind[x].len
      requires Page(x) in d && d[Page(x)].slab == kind[x].len
      modifies this
      ensures Ok()
      ensures IsHead(kind, x) && kind[x] == Piece(x, m, Run) && partial == old(partial) && bits == old(bits)
      ensures old(SizeAt(View(), x * PAGE_SIZE)) == 0 && SizeAt(View(), x * PAGE_SIZE) == m * PAGE_SIZE
      ensures forall a: nat {:trigger SizeAt(View(), a)} :: a != x * PAGE_SIZE ==>
              SizeAt(View(), a) == old(SizeAt(View(), a))
    {
      ghost var s0 := View();
      TakenInTransit(s0, k, m);
      Carve(x, m, k);
      IdleMovesKeepBlocks(s0, View());
      MarkRun(x, m);
    }

    /** Lines 630-645 */
    method Carve(x: nat, m: nat, ghost k: nat)
      requires CanTake(View(), k, m) && x == free[k] && d[Page(x)].slab == kind[x].len
      modifies this
      ensures View() == Taken(old(View()), k, m)
    {
      var len := d[Page(x)].slab;
      if len > m {
        CarvePart(x, m, len, k);
      } else {
        d := Unlink(d, x);
        kind, free := Recast(kind, kind[x], Loose), Without(free, k);
      }
    }

    /** Lines 632-640: the run is longer than needed. */
    method CarvePart(x: nat, m: nat, len: nat, ghost k: nat)
      requires CanTake(View(), k, m) && x == free[k] && len == kind[x].len > m
      modifies this
      ensures View() == Taken(old(View()), k, m)
    {
      d := SplitAt(d, x, x + m, x + len - 1, len - m);
      kind, free := Cut(kind, kind[x], m), free[k := x + m];
    }

    /** Lines 647-660 */
    method MarkRun(x: nat, m: nat)
      requires InTransit(View(), x) && kind[x] == Piece(x, m, Loose) && NoEmptyChunkPage(View(), -1) && Sized()
      modifies this
      ensures Ok()
      ensures IsHead(kind, x) && kind[x] == Piece(x, m, Run) && partial == old(partial) && bits == old(bits)
      ensures old(SizeAt(View(), x * PAGE_SIZE)) == 0 && SizeAt(View(), x * PAGE_SIZE) == m * PAGE_SIZE
      ensures forall a: nat {:trigger SizeAt(View(), a)} :: a != x * PAGE_SIZE ==>
              SizeAt(View(), a) == old(SizeAt(View(), a))
    {
      ghost var s0 := View();
      WriteRun(x, m);
      kind := Recast(kind, kind[x], Run);
      RunMade(s0, View(), x);
    }

    /** Lines 647-660: the descriptors of an allocated run. */
    method WriteRun(x: nat, m: nat)
      requires m > 0 && forall i :: x <= i < x + m ==> Page(i) in d
      modifies this`d
      ensures d.Keys == old(d).Keys
      ensures forall r :: r in d && !(r.Page? && x <= r.i < x + m) ==> d[r] == old(d)[r]
      ensures forall i :: x <= i < x + m ==> Page(i) in d && RunDesc(d[Page(i)], Piece(x, m, Run), i)
    {
      d := d[Page(x) := Desc(PAGE_START + m, Null, Null, PageTag)];
      var p := x + 1;
      while p < x + m
        invariant x + 1 <= p <= x + m && d.Keys == old(d).Keys
        invariant forall r :: r in d && !(r.Page? && x <= r.i < p) ==> d[r] == old(d)[r]
        invariant forall i :: x <= i < p ==> Page(i) in d && RunDesc(d[Page(i)], Piece(x, m, Run), i)
      {
        d := d[Page(p) := Desc(BUSY, Null, Null, PageTag)];
        p := p + 1;
      }
    }

    // ----- giving pages back -----

    /** Lines 694-753: the cleared run at x joins its free neighbours and becomes free. */
    method Coalesce(x: nat)
      requires Moving(View(), x) && Sized()
      modifies this
      ensures Ok() && SameBlocks(old(View()), View())
    {
      ghost var s0 := View();
      var head := Join(x);
      ghost var s2 := View();
      GivenBack(s2, head);
      Return(head);
      SameBlocksTrans(s0, s2, View());
    }

    /** Lines 694-741: returns the head of the joined run. */
    method Join(x: nat) returns (head: nat)
      requires Moving(View(), x) && Sized()
      modifies this
      ensures Moving(View(), head) && Sized() && SameBlocks(old(View()), View())
      ensures head > 0 ==> !kind[head - 1].sort.Free?
      ensures NotFreeAfter(View(), head)
    {
      ghost var s0 := View();
      JoinNext(x);
      ghost var s1 := View();
      head := JoinPrev(x);
      SameBlocksTrans(s0, s1, View());
    }

    /** Lines 743-752 */
    method Return(x: nat)
      requires CanGiveBack(View(), x)
      modifies this
      ensures View() == GiveBack(old(View()), x)
    {
      var len := d[Page(x)].slab;
      TailSetList(View(), x);
      if len > 1 {
        d := d[Page(x + len - 1) := d[Page(x + len - 1)].(prev := Page(x), tag := PageTag)];
      }
      d := PushFront(d, FreeList, x, PageTag);
      kind, free := Recast(kind, kind[x], Sort.Free), [x] + free;
    }

    /** Lines 694-714 */
    method JoinNext(x: nat)
      requires Moving(View(), x) && Sized()
      modifies this
      ensures Moving(View(), x) && Sized() && SameBlocks(old(View()), View())
      ensures NotFreeAfter(View(), x)
    {
      var join := x + d[Page(x)].slab;
      if join < pages {
        NextIsFree(View(), x);
        if d[Page(join)].tag == PageTag && d[Page(join)].next != Null {
          ghost var k :| 0 <= k < |free| && free[k] == join;
          NextJoined(View(), k, x);
          Absorb(x, join, x, k);
        }
      }
    }

    /** Lines 716-741: returns the head of the joined run. */
    method JoinPrev(x: nat) returns (head: nat)
      requires Moving(View(), x) && Sized() && NotFreeAfter(View(), x)
      modifies this
      ensures Moving(View(), head) && Sized() && SameBlocks(old(View()), View())
      ensures head > 0 ==> !kind[head - 1].sort.Free?
      ensures NotFreeAfter(View(), head)
    {
      head := x;
      if x > 0 {
        PrevIsFree(View(), x);
        var join := Page(x - 1);
        if d[join].tag == PageTag {
          if d[join].slab == 0 {
            join := d[join].prev;
          }
          if d[join].next != Null {
            head := join.i;
            AbsorbPrev(x, head);
          }
        }
      }
    }

    method AbsorbPrev(x: nat, head: nat)
      requires Moving(View(), x) && Sized() && NotFreeAfter(View(), x)
      requires head in free && FreeAt(kind, head) && head + kind[head].len == x
      modifies this
      ensures Moving(View(), head) && Sized() && SameBlocks(old(View()), View())
      ensures NotFreeAfter(View(), head) && (head > 0 ==> !kind[head - 1].sort.Free?)
    {
      ghost var k :| 0 <= k < |free| && free[k] == head;
      PrevJoined(View(), k, x, head);
      Absorb(x, head, head, k);
    }

    /** Lines 702-711 and 727-738: the free run y, adjacent to x, leaves the free list and joins it. */
    method Absorb(x: nat, y: nat, head: nat, ghost k: nat)
      requires TakeReady(View(), k) && free[k] == y && x < |kind| && x != y && Page(x) in d && (head == x || head == y)
      modifies this
      ensures View() == Absorbed(old(View()), k, x, head)
    {
      var joined := d[Page(head) := d[Page(head)].(slab := d[Page(x)].slab + d[Page(y)].slab)];
      d := Unlink(joined, y)[Page(if head == x then y else x) := Desc(0, Null, Null, PageTag)];
      kind, free := if head == x then Merge(kind, kind[x], kind[y])
        else Merge(kind, kind[y], kind[x]), Without(free, k);
    }

    // ----- allocation -----

    /** Lines 218-239, 262-272, 304-314: chunk k of the first listed page i is handed out. */
    method Mark(i: nat, c: nat, k: nat)
      requires Ok() && CanMark(View(), i, c, k) && c in partial && |partial[c]| > 0 && partial[c][0] == i
      modifies this
      ensures Ok() && kind == old(kind) && OneChunk(old(View()), View(), i, c, k)
      ensures Used(d[Page(i)].slab, Bits(View(), i), c, k)
    {
      ghost var s0 := View();
      MarkFacts(s0, i, c, k);
      MarkBit(i, c, k);
      if IsFull(d[Page(i)].slab, if i in bits then bits[i] else [], c) {
        Unlist(i, c, k, s0);
      }
    }

    /** Lines 232-238, 265-271, 307-313: the page has no room left. */
    method Unlist(i: nat, c: nat, ghost k: nat, ghost s0: Pool)
      requires Page(i) in s0.d && s0.d[Page(i)].prev in s0.d && s0.d[Page(i)].next in s0.d
      requires c in s0.partial && |s0.partial[c]| > 0 && (c < EXACT_SHIFT ==> k / WORD < |Bits(s0, i)|)
      requires View() == Marked(s0, i, c, k)
      modifies this
      ensures View() == Filled(s0, i, c, k)
    {
      d := Unlink(d, i)[Page(i) := Desc(d[Page(i)].slab, Null, Null, TagOf(c))];
      partial := partial[c := Without(partial[c], 0)];
    }

    method MarkBit(i: nat, c: nat, k: nat)
      requires Page(i) in d && (c < EXACT_SHIFT ==> i in bits && k / WORD < |bits[i]|)
      modifies this
      ensures View() == Marked(old(View()), i, c, k)
    {
      if c < EXACT_SHIFT {
        bits := bits[i := MarkBits(bits[i], c, k)];
      } else {
        d := d[Page(i) := d[Page(i)].(slab := MarkSlab(d[Page(i)].slab, c, k))];
      }
    }

    /** Lines 330-388: a fresh page of class c, its first chunk handed out. */
    method OpenPage(c: nat) returns (ok: bool, a: nat)
      requires Ok() && c in partial && partial[c] == []
      modifies this
      ensures Ok()
      ensures !ok <==> old(free) == []
      ensures !ok ==> View() == old(View())
      ensures ok ==> old(SizeAt(View(), a)) == 0 && SizeAt(View(), a) == Pow2(c)
      ensures ok ==> forall b: nat {:trigger SizeAt(View(), b)} :: b != a ==>
              SizeAt(View(), b) == old(SizeAt(View(), b))
    {
      ghost var s0 := View();
      NoPageIff(s0);
      var x;
      ok, x := AllocPages(1);
      a := 0;
      if ok {
        a := HandOut(x, c, s0);
      }
    }

    /** Lines 333-388 */
    method HandOut(x: nat, c: nat, ghost s0: Pool) returns (a: nat)
      requires Ok() && c in partial && partial[c] == [] && IsHead(kind, x) && kind[x] == Piece(x, 1, Run)
      requires Shape(s0) && FreeAt(s0.kind, x)
      requires forall b: nat {:trigger SizeAt(View(), b)} :: b != x * PAGE_SIZE ==> SizeAt(View(), b) == SizeAt(s0, b)
      modifies this
      ensures Ok() && SizeAt(s0, a) == 0 && SizeAt(View(), a) == Pow2(c)
      ensures forall b: nat {:trigger SizeAt(View(), b)} :: b != a ==> SizeAt(View(), b) == SizeAt(s0, b)
    {
      ghost var s1 := View();
      OpenedValid(s1, x, c);
      ListFresh(x, c);
      a := x * PAGE_SIZE + Header(c) * Pow2(c);
      assert a == ChunkAt(x, c, Header(c));
      OpenedAll(s0, s1, x, c);
    }

    /** Lines 344-356, 365-369, 378-382 */
    method ListFresh(x: nat, c: nat)
      requires Page(x) in d && Slot(c) in d && x < |kind| && 3 <= c < PAGE_SHIFT
      modifies this
      ensures View() == Opened(old(View()), x, c)
    {
      if c < EXACT_SHIFT {
        bits := bits[x := FreshBits(c)];
      }
      d := d[Page(x) := Desc(FreshSlab(c), Slot(c), Slot(c), TagOf(c))];
      d := d[Slot(c) := d[Slot(c)].(next := Page(x))];
      kind, partial := Recast(kind, kind[x], Chunks(c)), partial[c := [x]];
    }

    /** Lines 195-328 when the class has a listed page: its first one always has room. */
    method AllocListed(c: nat) returns (a: nat)
      requires Ok() && c in partial && partial[c] != []
      modifies this
      ensures Ok() && kind == old(kind)
      ensures old(SizeAt(View(), a)) == 0 && SizeAt(View(), a) == Pow2(c)
      ensures forall b: nat {:trigger SizeAt(View(), b)} :: b != a ==> SizeAt(View(), b) == old(SizeAt(View(), b))
    {
      ghost var s0 := View();
      ListedPage(s0, c, 0);
      var i := d[Slot(c)].next.i;
      var k := FirstRoom(d[Page(i)].slab, if i in bits then bits[i] else [], c);
      Mark(i, c, k);
      OneChunkSizes(s0, View(), i, c, k);
      a := i * PAGE_SIZE + k * Pow2(c);
      assert a == ChunkAt(i, c, k);
    }

    /** ngx_slab_alloc_locked, lines 155-398. */
    method Alloc(size: nat) returns (ok: bool, a: nat)
      requires Ok()
      modifies this
      ensures Ok()
      // a new block, at least as large as requested, and nothing else changes
      ensures ok ==> old(SizeAt(View(), a)) == 0 && SizeAt(View(), a) >= size && SizeAt(View(), a) > 0
      ensures ok ==> forall b: nat {:trigger SizeAt(View(), b)} :: b != a ==>
              SizeAt(View(), b) == old(SizeAt(View(), b))
      ensures ok && Pow2(minShift) < size < MAX_SIZE ==> SizeAt(View(), a) < 2 * size
      ensures ok && size <= Pow2(minShift) && size < MAX_SIZE ==> SizeAt(View(), a) == Pow2(minShift)
      ensures ok && size >= MAX_SIZE ==> SizeAt(View(), a) < size + PAGE_SIZE && SizeAt(View(), a) % PAGE_SIZE == 0
      ensures !ok ==> View() == old(View())
      // failure: no free run large enough, or neither a listed page of the class nor a free page
      ensures size >= MAX_SIZE ==> (!ok <==> NoRunFor(old(kind), size))
      ensures size < MAX_SIZE ==> ClassOf(size, minShift) in old(partial)
      ensures size < MAX_SIZE ==> (!ok <==> old(free) == [] && old(partial)[ClassOf(size, minShift)] == [])
    {
      if size >= MAX_SIZE {
        ok, a := AllocLarge(size);
        return;
      }
      var c := SizeClass(size, minShift);
      assert Shape(View()) && IsClass(View(), c);
      ok, a := AllocChunk(c);
    }

    /** Lines 163-179: as many pages as hold the size. */
    method AllocLarge(size: nat) returns (ok: bool, a: nat)
      requires Ok() && size > 0
      modifies this
      ensures Ok()
      ensures ok ==> old(SizeAt(View(), a)) == 0 && size <= SizeAt(View(), a) < size + PAGE_SIZE
      ensures ok ==> SizeAt(View(), a) % PAGE_SIZE == 0
      ensures ok ==> forall b: nat {:trigger SizeAt(View(), b)} :: b != a ==>
              SizeAt(View(), b) == old(SizeAt(View(), b))
      ensures !ok ==> View() == old(View())
      ensures !ok <==> NoRunFor(old(kind), size)
    {
      PagesForExact(size);
      var x;
      ok, x := AllocPages(PagesFor(size));
      a := x * PAGE_SIZE;
    }

    /** Lines 195-398: a chunk of class c. */
    method AllocChunk(c: nat) returns (ok: bool, a: nat)
      requires Ok() && c in partial
      modifies this
      ensures Ok()
      ensures ok ==> old(SizeAt(View(), a)) == 0 && SizeAt(View(), a) == Pow2(c)
      ensures ok ==> forall b: nat {:trigger SizeAt(View(), b)} :: b != a ==>
              SizeAt(View(), b) == old(SizeAt(View(), b))
      ensures !ok ==> View() == old(View())
      ensures !ok <==> old(free) == [] && old(partial)[c] == []
    {
      assert Shape(View()) && IsClass(View(), c) && ClassListed(View(), c);
      FirstListed(View(), c);
      var page := d[Slot(c)].next;
      if d[page].next != page {
        a := AllocListed(c);
        ok := true;
      } else {
        ok, a := OpenPage(c);
      }
    }

    // ----- ngx_slab_free_pages and ngx_slab_free_locked -----

    /** ngx_slab_free_pages, lines 675-753, on an allocated run. */
    method FreeRun(x: nat, m: nat)
      requires Ok() && IsHead(kind, x) && kind[x] == Piece(x, m, Run)
      modifies this
      ensures Ok() && old(SizeAt(View(), x * PAGE_SIZE)) > 0 && SizeAt(View(), x * PAGE_SIZE) == 0
      ensures forall b: nat {:trigger SizeAt(View(), b)} :: b != x * PAGE_SIZE ==>
              SizeAt(View(), b) == old(SizeAt(View(), b))
    {
      ghost var s0 := View();
      ClearRun(x, m);
      ghost var s1 := View();
      RunReleased(s0, s1, x);
      Coalesce(x);
      assert SizeAt(View(), x * PAGE_SIZE) == SizeAt(s1, x * PAGE_SIZE);
    }

    /** Lines 682-686 */
    method ClearRun(x: nat, m: nat)
      requires Shape(View()) && IsHead(kind, x) && kind[x] == Piece(x, m, Run)
      modifies this
      ensures View() == old(View()).(d := d, kind := Recast(old(kind), old(kind[x]), Loose))
      ensures OnlyPiece(old(d), d, old(kind[x])) && Cleared(d, Piece(x, m, Loose))
    {
      d := d[Page(x) := d[Page(x)].(slab := m)];
      var p := x + 1;
      while p < x + m
        invariant x + 1 <= p <= x + m
        invariant d.Keys == old(d).Keys && kind == old(kind) && free == old(free) && partial == old(partial) &&
                  bits == old(bits)
        invariant forall r :: r in d && !(r.Page? && x <= r.i < p) ==> d[r] == old(d)[r]
        invariant d[Page(x)].slab == m
        invariant forall i :: x < i < p ==> Page(i) in d && d[Page(i)] == Desc(0, Null, Null, PageTag)
      {
        d := d[Page(p) := Desc(0, Null, Null, PageTag)];
        p := p + 1;
      }
      kind := Recast(kind, kind[x], Loose);
    }

    /** ngx_slab_free_pages on an empty chunk page, which is on the list of its class. */
    method FreeChunkPage(i: nat, c: nat)
      requires Inv(View()) && Sized() && Coalesced(kind) && NoLoose(View()) && NoEmptyChunkPage(View(), i)
      requires Partial(View(), c, i) && Empty(d[Page(i)].slab, Bits(View(), i), c)
      modifies this
      ensures Ok() && SameBlocks(old(View()), View())
    {
      ghost var s0 := View();
      assert ClassListed(s0, c);
      ghost var pos :| 0 <= pos < |partial[c]| && partial[c][pos] == i;
      VacatedMoving(s0, c, pos);
      VacatedBlocks(s0, Vacated(s0, c, pos), i, c);
      UnlinkPage(i, c, pos);
      ghost var s1 := View();
      Coalesce(i);
      SameBlocksTrans(s0, s1, View());
    }

    /** Lines 682-692 on a listed page */
    method UnlinkPage(i: nat, c: nat, ghost pos: nat)
      requires CanDetach(View(), c, pos) && partial[c][pos] == i
      modifies this
      ensures View() == Vacated(old(View()), c, pos)
    {
      VacatedStore(View(), c, pos);
      d := d[Page(i) := d[Page(i)].(slab := 1)];
      d := Unlink(d, i);
      kind, partial := Recast(kind, kind[i], Loose), partial[c := Without(partial[c], pos)];
    }

    /** Lines 451-463, 501-513, 540-552: chunk k of page i is taken back. */
    method Unmark(i: nat, c: nat, k: nat)
      requires Ok() && CanUnmark(View(), i, c, k)
      modifies this
      ensures AfterUnmark(old(View()), View(), i, c, k)
    {
      ghost var s0 := View();
      CleanedPage(s0, i, c, k);
      if d[Page(i)].next != Null {
        UnmarkListed(s0, i, c, k);
        Clean(i, c, k);
      } else {
        UnmarkFull(s0, i, c, k);
        Clean(i, c, k);
        Relist(i, c);
      }
    }

    /** Lines 453-459, 503-509, 542-548: the page is no longer full and goes to the head of its list. */
    method Relist(i: nat, c: nat)
      requires Slot(c) in d && Page(i) in d && d[Slot(c)].next in d && c in partial && 3 <= c < PAGE_SHIFT
      modifies this`d, this`partial
      ensures d == PushFront(old(d), Slot(c), i, TagOf(c)) && partial == old(partial)[c := [i] + old(partial)[c]]
    {
      d := PushFront(d, Slot(c), i, TagOf(c));
      partial := partial[c := [i] + partial[c]];
    }

    method Clean(i: nat, c: nat, k: nat)
      requires ClearReady(View(), i, c, k)
      modifies this
      ensures View() == Cleaned(old(View()), i, c, k)
    {
      if c < EXACT_SHIFT {
        bits := bits[i := ClearBits(bits[i], c, k)];
      } else {
        d := d[Page(i) := d[Page(i)].(slab := ClearSlab(d[Page(i)].slab, c, k))];
      }
    }

    /** Lines 434-563: chunk k of page i, in use, is freed. */
    method FreeChunk(i: nat, c: nat, k: nat)
      requires Ok() && CanUnmark(View(), i, c, k)
      modifies this
      ensures Ok() && old(SizeAt(View(), ChunkAt(i, c, k))) == Pow2(c) && SizeAt(View(), ChunkAt(i, c, k)) == 0
      ensures forall b: nat {:trigger SizeAt(View(), b)} :: b != ChunkAt(i, c, k) ==>
              SizeAt(View(), b) == old(SizeAt(View(), b))
    {
      ghost var s0 := View();
      Unmark(i, c, k);
      ghost var s1 := View();
      OneChunkSizes(s0, s1, i, c, k);
      assert DescOk(s1, i);
      EmptyIff(d[Page(i)].slab, Bits(s1, i), c);
      if IsEmpty(d[Page(i)].slab, if i in bits then bits[i] else [], c) {
        FreeChunkPage(i, c);
        assert SizeAt(View(), ChunkAt(i, c, k)) == SizeAt(s1, ChunkAt(i, c, k));
      }
    }

    /** Lines 422-581 */
    method Free(a: int) returns (r: FreeResult)
      requires Ok()
      modifies this
      ensures r == NoPage <==> pages * PAGE_SIZE <= a <= extent
      ensures r == NotLive <==> a >= 0 && old(SizeAt(View(), a)) == 0 && old(Undetected(View(), a))
      ensures r != NoPage && r != NotLive ==> Ok()
      ensures a >= 0 && old(SizeAt(View(), a)) > 0 ==> r == Freed && SizeAt(View(), a) == 0
      ensures a >= 0 && old(SizeAt(View(), a)) > 0 ==>
        forall b: nat {:trigger SizeAt(View(), b)} :: b != a ==> SizeAt(View(), b) == old(SizeAt(View(), b))
      ensures a < 0 || old(SizeAt(View(), a)) == 0 ==> r != Freed
      ensures r != NoPage && r != NotLive && (a < 0 || old(SizeAt(View(), a)) == 0) ==> View() == old(View())
    {
      if !Passes(a) {
        if a >= 0 { BeyondHasNoBlock(View(), a); }
        return OutsidePool;
      }
      if !Described(a) {
        BeyondHasNoBlock(View(), a);
        return NoPage;
      }
      r := Check(d, bits, a);
      FreeChecksExact(View(), a);
      LiveExact(View(), a);
      if r == Freed {
        if !Live(d, a) {
          return NotLive;
        }
        FreeLive(a);
      }
    }

    /** Line 422 */
    predicate Passes(a: int) { 0 <= a <= extent }

    /** There is a descriptor for the page that line 427 computes. */
    predicate Described(a: int) { 0 <= a && a / PAGE_SIZE < pages }

    /** Lines 429-581 for a live block. */
    method FreeLive(a: nat)
      requires Ok() && SizeAt(View(), a) > 0 && Page(a / PAGE_SIZE) in d
      modifies this
      ensures Ok() && SizeAt(View(), a) == 0
      ensures forall b: nat {:trigger SizeAt(View(), b)} :: b != a ==> SizeAt(View(), b) == old(SizeAt(View(), b))
    {
      var i := a / PAGE_SIZE;
      if d[Page(i)].tag == PageTag {
        LiveRun(View(), a);
        FreeRun(i, d[Page(i)].slab - PAGE_START);
      } else {
        FreeLiveChunk(a, i);
      }
    }

    method FreeLiveChunk(a: nat, i: nat)
      requires Ok() && SizeAt(View(), a) > 0 && i == a / PAGE_SIZE && Page(i) in d && d[Page(i)].tag != PageTag
      modifies this
      ensures Ok() && SizeAt(View(), a) == 0
      ensures forall b: nat {:trigger SizeAt(View(), b)} :: b != a ==> SizeAt(View(), b) == old(SizeAt(View(), b))
    {
      var c, k := ChunkOf(a, i);
      FreeChunk(i, c, k);
    }

    method ChunkOf(a: nat, i: nat) returns (c: nat, k: nat)
      requires Ok() && SizeAt(View(), a) > 0 && i == a / PAGE_SIZE && Page(i) in d && d[Page(i)].tag != PageTag
      ensures CanUnmark(View(), i, c, k) && a == ChunkAt(i, c, k)
    {
      c := ShiftOf(d[Page(i)]);
      k := ChunkIndex(a, c);
      LiveChunk(View(), a, i, c);
    }

    /** Freeing every live block, in any order, leaves one free run of all pages. */
    method FreeAll(blocks: seq<nat>)
      requires Ok()
      requires forall a: nat :: SizeAt(View(), a) > 0 <==> a in blocks
      requires forall i, j :: 0 <= i < j < |blocks| ==> blocks[i] != blocks[j]
      modifies this
      ensures Ok() && kind[0] == Piece(0, pages, Sort.Free) && free == [0]
      ensures forall a: nat :: SizeAt(View(), a) == 0
    {
      var n := 0;
      while n < |blocks|
        invariant 0 <= n <= |blocks| && Ok()
        invariant forall a: nat {:trigger SizeAt(View(), a)} :: SizeAt(View(), a) > 0 <==> a in blocks[n..]
      {
        var a := blocks[n];
        assert a in blocks[n..];
        BlocksInside(View(), a);
        var r := Free(a);
        assert blocks[n..] == [a] + blocks[n+1..];
        n := n + 1;
      }
      assert forall a: nat :: SizeAt(View(), a) == 0;
      AllFreedIsOneRun(View());
    }

    /** ngx_slab_init, lines 98-132, for a region of `pages` pages. */
    constructor (pages: nat, minShift: nat, extent: nat)
      requires 0 < pages < PAGE_START - 1 && 3 <= minShift < PAGE_SHIFT && pages * PAGE_SIZE <= extent
      ensures Ok() && this.pages == pages && this.minShift == minShift && this.extent == extent
      ensures kind[0] == Piece(0, pages, Sort.Free)
      ensures forall a: nat :: SizeAt(View(), a) == 0
    {
      var m := InitHeads(minShift);
      m := InitPages(m, pages);
      this.pages, this.minShift, this.extent, this.d, this.bits := pages, minShift, extent, m, map[];
      kind := seq(pages, _ => Piece(0, pages, Sort.Free));
      free := [0];
      partial := NoPages(minShift);
      new;
      InitValid(View(), pages);
    }
  }

  /** Lines 99-107 and 118-119: the heads of the lists. */
  method InitHeads(minShift: nat) returns (m: Store)
    requires 3 <= minShift < PAGE_SHIFT
    ensures forall r :: r in m <==> r == FreeList || (r.Slot? && minShift <= r.shift < PAGE_SHIFT)
    ensures m[FreeList] == Desc(0, Page(0), Null, PageTag)
    ensures forall b :: minShift <= b < PAGE_SHIFT ==> m[Slot(b)] == Desc(0, Slot(b), Null, PageTag)
  {
    m := map[FreeList := Desc(0, Page(0), Null, PageTag)];
    var c := minShift;
    while c < PAGE_SHIFT
      invariant minShift <= c <= PAGE_SHIFT
      invariant forall r :: r in m <==> r == FreeList || (r.Slot? && minShift <= r.shift < c)
      invariant m[FreeList] == Desc(0, Page(0), Null, PageTag)
      invariant forall b :: minShift <= b < c ==> m[Slot(b)] == Desc(0, Slot(b), Null, PageTag)
    {
      m := m[Slot(c) := Desc(0, Slot(c), Null, PageTag)];
      c := c + 1;
    }
  }

  /** Lines 113-123: the descriptors of the pages, one free run. */
  method InitPages(heads: Store, pages: nat) returns (m: Store)
    requires pages > 0 && forall r :: r in heads ==> !r.Page?
    ensures forall r :: r in m <==> r in heads || (r.Page? && r.i < pages)
    ensures forall r :: r in heads ==> m[r] == heads[r]
    ensures m[Page(0)] == Desc(pages, FreeList, FreeList, PageTag)
    ensures forall j :: 0 < j < pages ==> m[Page(j)] == Desc(0, Null, Null, PageTag)
  {
    m := heads;
    var i := 0;
    while i < pages
      invariant 0 <= i <= pages
      invariant forall r :: r in m <==> r in heads || (r.Page? && r.i < i)
      invariant forall r :: r in heads ==> m[r] == heads[r]
      invariant forall j :: 0 <= j < i ==> m[Page(j)] == Desc(0, Null, Null, PageTag)
    {
      m := m[Page(i) := Desc(0, Null, Null, PageTag)];
      i := i + 1;
    }
    m := m[Page(0) := Desc(pages, FreeList, FreeList, PageTag)];
  }

  predicate InClasses(lo: nat, b: nat) { lo <= b < PAGE_SHIFT }

  /** Every size class with an empty list. */
  function NoPages(lo: nat): (m: map<nat, seq<nat>>)
    ensures forall b :: b in m <==> InClasses(lo, b)
    ensures forall b :: b in m ==> m[b] == []
  {
    map b: nat | b < PAGE_SHIFT && InClasses(lo, b) :: []
  }

  lemma InitValid(s: Pool, n: nat)
    requires 0 < n < PAGE_START - 1 && 3 <= s.minShift < PAGE_SHIFT && s.bits == map[] && s.free == [0]
    requires s.kind == seq(n, _ => Piece(0, n, Sort.Free)) && s.partial == NoPages(s.minShift)
    requires Null !in s.d && FreeList in s.d && s.d[FreeList].next == Page(0)
    requires forall b :: s.minShift <= b < PAGE_SHIFT ==> Slot(b) in s.d && s.d[Slot(b)].next == Slot(b)
    requires forall j :: 0 <= j < n ==> Page(j) in s.d
    requires s.d[Page(0)] == Desc(n, FreeList, FreeList, PageTag) && forall j :: 0 < j < n ==>
             s.d[Page(j)] == Desc(0, Null, Null, PageTag)
    ensures Valid(s) && forall a: nat :: SizeAt(s, a) == 0
  {
    assert Shape(s);
    forall i | 0 <= i < n ensures DescOk(s, i) {}
    assert IsNode(s.d, FreeList, [0], PageTag, 0);
    assert FreeListed(s);
    forall c | c in s.partial ensures ClassListed(s, c) {}
  }

  /**
   What ngx_slab_free_locked answers; Freed means that it goes on to free the block.  NoPage and NotLive
   are not its answers: there it goes on with a descriptor that does not exist, or with a block that is
   not live, and the model stops.
   */
  datatype FreeResult = Freed | OutsidePool | WrongChunk | ChunkAlreadyFree | PageAlreadyFree | WrongPage
                      | NoPage | NotLive

  /** shift = slab & NGX_SLAB_SHIFT_MASK, or ngx_slab_exact_shift */
  function ShiftOf(e: Desc): nat { if e.tag == ExactTag then EXACT_SHIFT else e.slab % 16 }

  /** The tests of lines 427-581 for an address inside the pool. */
  function Check(d: Store, bits: map<nat, seq<nat>>, a: nat): FreeResult
    requires Page(a / PAGE_SIZE) in d
  {
    var i, off := a / PAGE_SIZE, a % PAGE_SIZE;
    var e := d[Page(i)];
    if e.tag == PageTag then
      if off != 0 then WrongChunk
      else if e.slab == 0 then PageAlreadyFree
      else if e.slab == BUSY then WrongPage
      else Freed
    else
      var shift := ShiftOf(e);
      if off % Pow2(shift) != 0 then WrongChunk
      else if Used(e.slab, if i in bits then bits[i] else [], shift, off / Pow2(shift)) then Freed
      else ChunkAlreadyFree
  }

  /** Addresses that pass those tests although no live block starts there. */
  ghost predicate Undetected(s: Pool, a: nat) {
    var i, off := a / PAGE_SIZE, a % PAGE_SIZE;
    i < |s.kind| &&
    match s.kind[i].sort
    case Free => s.kind[i].start == i && off == 0
    case Chunks(shift) => off % Pow2(shift) == 0 && off / Pow2(shift) < Header(shift)
    case _ => false
  }

  /**
   The tests of ngx_slab_free_locked accept exactly the live blocks, the first page of a
   free run (a second free of the same pages), and the chunks that hold a page's bitmap.
   */
  lemma FreeChecksExact(s: Pool, a: nat)
    requires Valid(s) && a < |s.kind| * PAGE_SIZE
    ensures Check(s.d, s.bits, a) == Freed <==> SizeAt(s, a) > 0 || Undetected(s, a)
  {
    var i := a / PAGE_SIZE;
    if s.kind[i].sort.Chunks? { ChunkChecksExact(s, a); } else { PageChecksExact(s, a); }
  }

  /** A page allocated, freed and freed again: the second free passes every test although nothing is there. */
  method DoubleFree(minShift: nat, extent: nat) returns (pool: SlabPool, a: nat)
    requires 3 <= minShift < PAGE_SHIFT && PAGE_SIZE <= extent
    ensures fresh(pool) && pool.Ok() && a == 0 && Page(0) in pool.d
    ensures SizeAt(pool.View(), a) == 0 && Check(pool.d, pool.bits, a) == Freed
  {
    pool := new SlabPool(1, minShift, extent);
    assert FreeAt(pool.kind, 0) && pool.kind[0].len * PAGE_SIZE >= PAGE_SIZE;
    var ok;
    ok, a := pool.Alloc(PAGE_SIZE);
    BlocksInside(pool.View(), a);
    var r := pool.Free(a);
    AllFreedIsOneRun(pool.View());
    FreeHeadPasses(pool.View(), a);
  }

  /** The first page of a free run passes the tests. */
  lemma FreeHeadPasses(s: Pool, a: nat)
    requires Valid(s) && a < |s.kind| * PAGE_SIZE && a % PAGE_SIZE == 0 && s.kind[a / PAGE_SIZE].sort.Free? &&
             s.kind[a / PAGE_SIZE].start == a / PAGE_SIZE
    ensures SizeAt(s, a) == 0 && Check(s.d, s.bits, a) == Freed
  {
    FreeChecksExact(s, a);
  }

  /**
   The test of line 422 lets through exactly the addresses from the end of the last page to pool->end, of
   which there is at least one, although no page descriptor belongs to them.
   */
  lemma BoundsLetThrough(pool: SlabPool, a: int)
    requires pool.Ok()
    ensures pool.Passes(a) && !pool.Described(a) <==> pool.pages * PAGE_SIZE <= a <= pool.extent
    ensures pool.Passes(a) && pool.Described(a) ==> Page(a / PAGE_SIZE) in pool.d
    ensures var end := pool.pages * PAGE_SIZE; pool.Passes(end) && !pool.Described(end)
  {
  }

  /** Of the addresses that the tests accept, those of live blocks. */
  predicate Live(d: Store, a: nat)
    requires Page(a / PAGE_SIZE) in d
  {
    var e := d[Page(a / PAGE_SIZE)];
    if e.tag == PageTag then e.slab >= PAGE_START
    else a % PAGE_SIZE / Pow2(ShiftOf(e)) >= Header(ShiftOf(e))
  }

  lemma LiveExact(s: Pool, a: nat)
    requires Valid(s) && a < |s.kind| * PAGE_SIZE
    ensures Check(s.d, s.bits, a) == Freed ==> (Live(s.d, a) <==> SizeAt(s, a) > 0)
    ensures SizeAt(s, a) > 0 ==> !Undetected(s, a)
  {
    var i := a / PAGE_SIZE;
    FreeChecksExact(s, a);
    if s.kind[i].sort.Chunks? { ShiftIsClass(s, i); } else { assert DescOk(s, i); }
  }

  lemma PageChecksExact(s: Pool, a: nat)
    requires Valid(s) && a < |s.kind| * PAGE_SIZE && !s.kind[a / PAGE_SIZE].sort.Chunks?
    ensures Check(s.d, s.bits, a) == Freed <==> SizeAt(s, a) > 0 || Undetected(s, a)
  {
    assert DescOk(s, a / PAGE_SIZE);
  }

  lemma ChunkChecksExact(s: Pool, a: nat)
    requires Valid(s) && a < |s.kind| * PAGE_SIZE && s.kind[a / PAGE_SIZE].sort.Chunks?
    ensures Check(s.d, s.bits, a) == Freed <==> SizeAt(s, a) > 0 || Undetected(s, a)
  {
    var i := a / PAGE_SIZE;
    ShiftIsClass(s, i);
    HeaderUsed(s, i);
    ChunkVerdict(s, a, s.kind[i].sort.shift);
  }

  lemma ChunkVerdict(s: Pool, a: nat, c: nat)
    requires Shape(s) && a / PAGE_SIZE < |s.kind| && s.kind[a / PAGE_SIZE].sort == Chunks(c)
    requires var i := a / PAGE_SIZE;
      && s.d[Page(i)].tag != PageTag && ShiftOf(s.d[Page(i)]) == c
      && (forall k: nat :: k < Header(c) ==> Used(s.d[Page(i)].slab, Bits(s, i), c, k))
    ensures Check(s.d, s.bits, a) == Freed <==> SizeAt(s, a) > 0 || Undetected(s, a)
  {
    var i, k := a / PAGE_SIZE, ChunkIndex(a, c);
    assert k < Header(c) ==> Used(s.d[Page(i)].slab, Bits(s, i), c, k);
    ChunkVerdictAt(s, a, c, k);
  }

  /** Which chunk of its page an address is in. */
  function ChunkIndex(a: nat, c: nat): nat { Quotient(a % PAGE_SIZE, Pow2(c)) }

  function Quotient(x: nat, n: nat): nat
    requires n > 0
  {
    x / n
  }

  lemma ChunkVerdictAt(s: Pool, a: nat, c: nat, k: nat)
    requires Shape(s) && a / PAGE_SIZE < |s.kind| && s.kind[a / PAGE_SIZE].sort == Chunks(c)
    requires var i := a / PAGE_SIZE;
      && s.d[Page(i)].tag != PageTag && ShiftOf(s.d[Page(i)]) == c
      && (k < Header(c) ==> Used(s.d[Page(i)].slab, Bits(s, i), c, k))
    requires k == ChunkIndex(a, c)
    ensures Check(s.d, s.bits, a) == Freed <==> SizeAt(s, a) > 0 || Undetected(s, a)
  {
    ChunkCheck(s.d, s.bits, a, c, k);
    ChunkHere(s, a, c, k);
  }

  lemma ChunkCheck(d: Store, bits: map<nat, seq<nat>>, a: nat, c: nat, k: nat)
    requires var i := a / PAGE_SIZE; Page(i) in d && d[Page(i)].tag != PageTag && ShiftOf(d[Page(i)]) == c
    requires k == ChunkIndex(a, c)
    ensures var i := a / PAGE_SIZE;
      Check(d, bits, a) == Freed <==>
        a % PAGE_SIZE % Pow2(c) == 0 && Used(d[Page(i)].slab, if i in bits then bits[i] else [], c, k)
  {
  }

  lemma ChunkHere(s: Pool, a: nat, c: nat, k: nat)
    requires Shape(s) && a / PAGE_SIZE < |s.kind| && s.kind[a / PAGE_SIZE].sort == Chunks(c)
    requires k == ChunkIndex(a, c)
    ensures SizeAt(s, a) > 0 <==>
      a % PAGE_SIZE % Pow2(c) == 0 && Header(c) <= k &&
        Used(s.d[Page(a / PAGE_SIZE)].slab, Bits(s, a / PAGE_SIZE), c, k)
    ensures Undetected(s, a) <==> a % PAGE_SIZE % Pow2(c) == 0 && k < Header(c)
  {
  }

  lemma HeaderUsed(s: Pool, i: nat)
    requires Valid(s) && i < |s.kind| && s.kind[i].sort.Chunks?
    ensures var c := s.kind[i].sort.shift; forall k: nat :: k < Header(c) ==> Used(s.d[Page(i)].slab, Bits(s, i), c, k)
  {
    assert DescOk(s, i);
  }

  lemma LowBits(slab: nat)
    ensures slab % 16 == (slab % MAP_UNIT) % 16
  {
  }

  lemma ShiftIsClass(s: Pool, i: nat)
    requires Inv(s) && i < |s.kind| && s.kind[i].sort.Chunks?
    ensures ShiftOf(s.d[Page(i)]) == s.kind[i].sort.shift && s.d[Page(i)].tag != PageTag
  {
    assert DescOk(s, i);
    LowBits(s.d[Page(i)].slab);
  }

  lemma FirstListed(s: Pool, c: nat)
    requires Inv(s) && c in s.partial
    ensures Slot(c) in s.d && s.d[Slot(c)].next in s.d
    ensures s.d[s.d[Slot(c)].next].next != s.d[Slot(c)].next <==> s.partial[c] != []
  {
    assert ClassListed(s, c);
    if s.partial[c] != [] {
      UnlinkDefined(s.d, Slot(c), s.partial[c], TagOf(c), 0);
      if |s.partial[c]| > 1 { assert s.partial[c][0] != s.partial[c][1]; }
    }
  }

  lemma BeyondHasNoBlock(s: Pool, a: nat)
    requires Shape(s) && a >= |s.kind| * PAGE_SIZE
    ensures SizeAt(s, a) == 0
  {
  }

  /** What the free path reads off a live block's address. */
  lemma LiveRun(s: Pool, a: nat)
    requires Valid(s) && SizeAt(s, a) > 0 && s.d[Page(a / PAGE_SIZE)].tag == PageTag
    ensures var i := a / PAGE_SIZE;
      i < |s.kind| && a == i * PAGE_SIZE && IsHead(s.kind, i) && s.kind[i].sort.Run? &&
        s.d[Page(i)].slab == PAGE_START + s.kind[i].len
  {
    var i := a / PAGE_SIZE;
    assert DescOk(s, i);
    if s.kind[i].sort.Chunks? { ShiftIsClass(s, i); }
  }

  lemma LiveChunk(s: Pool, a: nat, i: nat, c: nat)
    requires Valid(s) && SizeAt(s, a) > 0 && i == a / PAGE_SIZE && s.d[Page(i)].tag != PageTag &&
             c == ShiftOf(s.d[Page(i)])
    ensures CanUnmark(s, i, c, ChunkIndex(a, c)) && a == ChunkAt(i, c, ChunkIndex(a, c))
  {
    assert DescOk(s, i);
    assert s.kind[i].sort.Chunks?;
    ShiftIsClass(s, i);
    IndexBound(a % PAGE_SIZE, c);
  }
}
