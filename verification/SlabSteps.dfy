/**
 From valid state to valid state: taking a run of pages, giving one back with
 coalescing, and what each does to the live blocks.
 */
module SlabSteps {
  import opened Words
  import opened SlabList
  import opened SlabLayout
  import opened SlabPages
  import opened SlabBlocks

  /** The run at x is the only one in transit. */
  ghost predicate InTransit(s: Pool, x: nat) {
    && Inv(s) && Coalesced(s.kind) && IsHead(s.kind, x) && s.kind[x].sort.Loose?
    && (forall i :: 0 <= i < |s.kind| && s.kind[i].sort.Loose? ==> s.kind[i] == s.kind[x])
  }

  predicate Idle(k: Sort) { k.Free? || k.Loose? }

  // ----- taking -----

  /** Pages change between free and loose only. */
  predicate IdleMove(a: seq<Piece>, b: seq<Piece>, i: nat)
    requires i < |a| && i < |b|
  {
    b[i] == a[i] || (Idle(a[i].sort) && Idle(b[i].sort))
  }

  lemma IdleMovesKeepBlocks(s: Pool, s': Pool)
    requires Shape(s) && Shape(s') && SameChunks(s, s')
    requires forall i :: 0 <= i < |s.kind| ==> IdleMove(s.kind, s'.kind, i)
    ensures SameBlocks(s, s')
    ensures NoEmptyChunkPage(s, -1) ==> NoEmptyChunkPage(s', -1)
  {
    forall i | 0 <= i < |s.kind| ensures SameUse(s, s', i) {
      assert IdleMove(s.kind, s'.kind, i) && SameChunkPage(s, s', i);
    }
    UsesFixBlocks(s, s');
    if NoEmptyChunkPage(s, -1) { NoEmptyFrame(s, s', -1); }
  }

  /** Lines 626-645: m pages from the free run at position k. */
  ghost function Taken(s: Pool, k: nat, m: nat): Pool
    requires CanTake(s, k, m)
  {
    if m == s.kind[s.free[k]].len then TakeAll(s, k) else TakeSome(s, k, m)
  }

  predicate CanTake(s: Pool, k: nat, m: nat) {
    TakeReady(s, k) && 0 < m <= s.kind[s.free[k]].len && (m < s.kind[s.free[k]].len ==> SplitReady(s, k, m))
  }

  lemma TakenInTransit(s: Pool, k: nat, m: nat)
    requires Valid(s) && k < |s.free| && s.free[k] < |s.kind| && 0 < m <= s.kind[s.free[k]].len
    ensures CanTake(s, k, m)
    ensures var s', x := Taken(s, k, m), s.free[k];
      && InTransit(s', x) && s'.kind[x] == Piece(x, m, Loose) && SameChunks(s, s')
      && forall i :: 0 <= i < |s.kind| ==> IdleMove(s.kind, s'.kind, i)
  {
    FreeHead(s, k);
    if m == s.kind[s.free[k]].len { TakenWhole(s, k, m); } else { TakenPart(s, k, m); }
  }

  lemma TakenWhole(s: Pool, k: nat, m: nat)
    requires Valid(s) && k < |s.free| && FreeAt(s.kind, s.free[k]) && 0 < m == s.kind[s.free[k]].len
    ensures CanTake(s, k, m)
    ensures var s', x := Taken(s, k, m), s.free[k];
      && InTransit(s', x) && s'.kind[x] == Piece(x, m, Loose) && SameChunks(s, s')
      && forall i :: 0 <= i < |s.kind| ==> IdleMove(s.kind, s'.kind, i)
  {
    FreeHead(s, k);
    TakeAllInv(s, k);
  }

  lemma TakenPart(s: Pool, k: nat, m: nat)
    requires Valid(s) && k < |s.free| && FreeAt(s.kind, s.free[k]) && 0 < m < s.kind[s.free[k]].len
    ensures CanTake(s, k, m)
    ensures var s', x := Taken(s, k, m), s.free[k];
      && InTransit(s', x) && s'.kind[x] == Piece(x, m, Loose) && SameChunks(s, s')
      && forall i :: 0 <= i < |s.kind| ==> IdleMove(s.kind, s'.kind, i)
  {
    CutPoints(s, k, m);
    TakeSomeInv(s, k, m);
  }

  /** Lines 647-660: the run in transit becomes an allocated run. */
  lemma RunMade(s: Pool, s': Pool, x: nat)
    requires InTransit(s, x) && NoEmptyChunkPage(s, -1)
    requires s' == s.(d := s'.d, kind := Recast(s.kind, s.kind[x], Run)) && OnlyPiece(s.d, s'.d, s.kind[x])
    requires forall i :: Covers(s.kind[x], i) ==> RunDesc(s'.d[Page(i)], s.kind[x].(sort := Run), i)
    ensures Valid(s') && SizeAt(s', x * PAGE_SIZE) == s.kind[x].len * PAGE_SIZE && SizeAt(s, x * PAGE_SIZE) == 0
    ensures forall a: nat {:trigger SizeAt(s', a)} :: a != x * PAGE_SIZE ==> SizeAt(s', a) == SizeAt(s, a)
  {
    UnlistedInv(s, s', x, Run);
    NoEmptyFrame(s, s', -1);
    RunSize(s', x);
    RunSize(s, x);
    RunBlocks(s, s', x, Run);
  }

  lemma RunSize(s: Pool, x: nat)
    requires Shape(s) && IsHead(s.kind, x) && !s.kind[x].sort.Chunks?
    ensures SizeAt(s, x * PAGE_SIZE) == if s.kind[x].sort.Run? then s.kind[x].len * PAGE_SIZE else 0
  {
    PageOffset(x, 0);
  }

  /** Between Run and Loose, only the block at the head changes. */
  lemma RunBlocks(s: Pool, s': Pool, x: nat, sort: Sort)
    requires Shape(s) && Shape(s') && SameChunks(s, s') && IsHead(s.kind, x) && !s.kind[x].sort.Chunks? &&
             (sort.Run? || sort.Loose?)
    requires s'.kind == Recast(s.kind, s.kind[x], sort)
    ensures forall a: nat {:trigger SizeAt(s', a)} :: a != x * PAGE_SIZE ==> SizeAt(s', a) == SizeAt(s, a)
  {
    forall a: nat | a != x * PAGE_SIZE ensures SizeAt(s', a) == SizeAt(s, a) {
      var i := a / PAGE_SIZE;
      if i < |s.kind| {
        assert SameChunkPage(s, s', i);
        assert a == i * PAGE_SIZE + a % PAGE_SIZE;
      }
    }
  }

  // ----- giving back -----

  /** Lines 682-686 on an allocated run: cleared and in transit. */
  lemma RunReleased(s: Pool, s': Pool, x: nat)
    requires Valid(s) && IsHead(s.kind, x) && s.kind[x].sort.Run?
    requires s' == s.(d := s'.d, kind := Recast(s.kind, s.kind[x], Loose)) && OnlyPiece(s.d, s'.d, s.kind[x])
    ensures InTransit(s', x) && NoEmptyChunkPage(s', -1) && s'.kind[x] == s.kind[x].(sort := Loose)
    ensures SizeAt(s, x * PAGE_SIZE) == s.kind[x].len * PAGE_SIZE && SizeAt(s', x * PAGE_SIZE) == 0
    ensures forall a: nat {:trigger SizeAt(s', a)} :: a != x * PAGE_SIZE ==> SizeAt(s', a) == SizeAt(s, a)
  {
    UnlistedInv(s, s', x, Loose);
    NoEmptyFrame(s, s', -1);
    RunSize(s', x);
    RunSize(s, x);
    RunBlocks(s, s', x, Loose);
  }

  /** Lines 696-741: an adjacent free run joins the run in transit, whose first page is then `head`. */
  lemma Joined(s: Pool, s': Pool, k: nat, x: nat, head: nat)
    requires InTransit(s, x) && Absorbs(s, s', k, x)
    requires head == (if x + s.kind[x].len == s.free[k] then x else s.free[k])
    requires Cleared(s.d, s.kind[x])
    requires s'.d[Page(head)].slab == s.kind[x].len + s.kind[s.free[k]].len
    requires var z := if head == x then s.free[k] else x; s'.d[Page(z)] == Desc(0, Null, Null, PageTag)
    ensures InTransit(s', head) && Cleared(s'.d, s'.kind[head]) && SameChunks(s, s')
    ensures s'.kind[head].len == s.kind[x].len + s.kind[s.free[k]].len
    ensures forall i :: 0 <= i < |s.kind| ==> IdleMove(s.kind, s'.kind, i)
  {
    FreeHead(s, k);
    AbsorbInv(s, s', k, x);
    JoinedTransit(s, s', k, x, head);
    var p := s'.kind[head];
    forall i | p.start < i < p.start + p.len
      ensures Page(i) in s'.d && s'.d[Page(i)].slab == 0 && s'.d[Page(i)].next == Null && s'.d[Page(i)].tag == PageTag
    {
      JoinedInside(s, s', k, x, head, i);
    }
  }

  lemma JoinedTransit(s: Pool, s': Pool, k: nat, x: nat, head: nat)
    requires InTransit(s, x) && Absorbs(s, s', k, x) && FreeAt(s.kind, s.free[k]) && Partition(s'.kind)
    requires head == (if x + s.kind[x].len == s.free[k] then x else s.free[k])
    ensures s'.kind[head] == Piece(head, s.kind[x].len + s.kind[s.free[k]].len, Loose) && Coalesced(s'.kind)
    ensures forall i :: 0 <= i < |s'.kind| && s'.kind[i].sort.Loose? ==> s'.kind[i] == s'.kind[head]
    ensures forall i :: 0 <= i < |s.kind| ==> IdleMove(s.kind, s'.kind, i)
  {
  }

  /** The pages of the joined run behind its head are cleared. */
  lemma JoinedInside(s: Pool, s': Pool, k: nat, x: nat, head: nat, i: nat)
    requires Absorbs(s, s', k, x) && FreeAt(s.kind, s.free[k]) && Cleared(s.d, s.kind[x])
    requires head == (if x + s.kind[x].len == s.free[k] then x else s.free[k])
    requires head < i < head + s.kind[x].len + s.kind[s.free[k]].len
    requires var z := if head == x then s.free[k] else x; s'.d[Page(z)] == Desc(0, Null, Null, PageTag)
    ensures Page(i) in s'.d && s'.d[Page(i)].slab == 0 && s'.d[Page(i)].next == Null && s'.d[Page(i)].tag == PageTag
  {
    var y := s.free[k];
    if Covers(s.kind[x], i) { SamePiece(s.kind, x, i); } else { SamePiece(s.kind, y, i); }
    assert DescOk(s, i);
    assert i in s.free <==> FreeAt(s.kind, i);
    if i != x && i != y {
      UnlinkAt(s.d, FreeList, s.free, PageTag, k, Page(i));
    }
  }

  /** What lies beyond a free run next to the run in transit is not free. */
  lemma JoinedEdge(s: Pool, s': Pool, k: nat, x: nat, head: nat)
    requires InTransit(s, x) && Absorbs(s, s', k, x) && FreeAt(s.kind, s.free[k])
    requires head == (if x + s.kind[x].len == s.free[k] then x else s.free[k])
    ensures s'.kind[head] == Piece(head, s.kind[x].len + s.kind[s.free[k]].len, Loose)
    ensures var e := head + s'.kind[head].len;
      head == x && e < |s.kind| ==> !s'.kind[e].sort.Free?
    ensures head != x && x + s.kind[x].len < |s.kind| && !s.kind[x + s.kind[x].len].sort.Free? ==>
            !s'.kind[x + s.kind[x].len].sort.Free?
    ensures head != x && head > 0 ==> !s'.kind[head - 1].sort.Free?
  {
    var y := s.free[k];
    var q := s.kind[y];
    if head == x {
      if y + q.len < |s.kind| {
        NextHead(s.kind, y);
        SamePiece(s.kind, y, y + q.len - 1);
      }
    } else if y > 0 {
      PrevTail(s.kind, y);
    }
  }

  /** Lines 743-752: the run in transit, with no free neighbour, becomes a free run. */
  lemma GivenBack(s: Pool, x: nat)
    requires InTransit(s, x) && Cleared(s.d, s.kind[x]) && NoEmptyChunkPage(s, -1)
    requires x > 0 ==> !s.kind[x-1].sort.Free?
    requires x + s.kind[x].len < |s.kind| ==> !s.kind[x + s.kind[x].len].sort.Free?
    ensures Valid(GiveBack(s, x)) && SameBlocks(s, GiveBack(s, x))
  {
    var s' := GiveBack(s, x);
    GiveBackInv(s, x);
    forall i | 0 <= i < |s.kind| ensures IdleMove(s.kind, s'.kind, i) {}
    IdleMovesKeepBlocks(s, s');
    NoEmptyFrame(s, s', -1);
    forall i | 0 <= i < |s'.kind| - 1 && s'.kind[i].sort.Free? &&
      s'.kind[i+1].sort.Free? ensures s'.kind[i] == s'.kind[i+1] {
      EdgeOf(s.kind, x, i);
    }
  }

  lemma EdgeOf(kind: seq<Piece>, x: nat, i: nat)
    requires Partition(kind) && IsHead(kind, x) && i + 1 < |kind|
    ensures kind[i] == kind[x] && kind[i+1] != kind[x] ==> i + 1 == x + kind[x].len
    ensures kind[i] != kind[x] && kind[i+1] == kind[x] ==> i + 1 == x
  {
    if Covers(kind[x], i) { SamePiece(kind, x, i); }
    if Covers(kind[x], i + 1) { SamePiece(kind, x, i + 1); }
  }

  /** A run in transit and the state around it. */
  ghost predicate Moving(s: Pool, x: nat) {
    InTransit(s, x) && Cleared(s.d, s.kind[x]) && NoEmptyChunkPage(s, -1)
  }

  /** The free run at position k, adjacent to the run x, joins it. */
  ghost predicate Joins(s: Pool, s': Pool, k: nat, x: nat, head: nat) {
    && Absorbs(s, s', k, x) && s.free[k] < |s.kind| && x < |s.kind|
    && head == (if x + s.kind[x].len == s.free[k] then x else s.free[k])
    && s'.d[Page(head)].slab == s.kind[x].len + s.kind[s.free[k]].len
    && s'.d[Page(if head == x then s.free[k] else x)] == Desc(0, Null, Null, PageTag)
  }

  lemma JoinedMoving(s: Pool, s': Pool, k: nat, x: nat, head: nat)
    requires Moving(s, x) && Joins(s, s', k, x, head)
    ensures Moving(s', head) && SameBlocks(s, s') && |s'.kind| == |s.kind|
  {
    FreeHead(s, k);
    Joined(s, s', k, x, head);
    IdleMovesKeepBlocks(s, s');
  }

  /** Lines 702-711 and 727-738: the free run y = free[k], adjacent to x, leaves the free list and joins it. */
  ghost function Absorbed(s: Pool, k: nat, x: nat, head: nat): Pool
    requires TakeReady(s, k) && x < |s.kind| && x != s.free[k] && Page(x) in s.d && (head == x || head == s.free[k])
  {
    var y := s.free[k];
    var d1 := s.d[Page(head) := s.d[Page(head)].(slab := s.d[Page(x)].slab + s.d[Page(y)].slab)];
    var d2 := Unlink(d1, y);
    s.(d := d2[Page(if head == x then y else x) := Desc(0, Null, Null, PageTag)],
       kind := if head == x then Merge(s.kind, s.kind[x], s.kind[y]) else Merge(s.kind, s.kind[y], s.kind[x]),
       free := Without(s.free, k))
  }

  lemma AbsorbedJoins(s: Pool, k: nat, x: nat, head: nat)
    requires Moving(s, x) && k < |s.free| && FreeAt(s.kind, s.free[k])
    requires var y := s.free[k]; if head == x then x + s.kind[x].len == y else head == y && y + s.kind[y].len == x
    ensures TakeReady(s, k) && x != s.free[k] && Joins(s, Absorbed(s, k, x, head), k, x, head)
  {
    FreeHead(s, k);
    AbsorbedStore(s, k, x, head);
  }

  lemma AbsorbedStore(s: Pool, k: nat, x: nat, head: nat)
    requires TakeReady(s, k) && x < |s.kind| && x != s.free[k] && Page(x) in s.d && (head == x || head == s.free[k])
    ensures var y, d' := s.free[k], Absorbed(s, k, x, head).d;
      && d'.Keys == s.d.Keys && d'[Page(head)].slab == s.d[Page(x)].slab + s.d[Page(y)].slab
      && d'[Page(if head == x then y else x)] == Desc(0, Null, Null, PageTag)
      && forall r :: r in s.d && r != Page(x) && r != Page(y) ==> d'[r] == Unlink(s.d, y)[r]
  {
  }

  lemma JoinedNext(s: Pool, s': Pool, k: nat, x: nat)
    requires Moving(s, x) && Joins(s, s', k, x, x) && FreeAt(s.kind, s.free[k]) && x != s.free[k]
    ensures Moving(s', x) && SameBlocks(s, s') && |s'.kind| == |s.kind| && NotFreeAfter(s', x)
  {
    JoinedMoving(s, s', k, x, x);
    JoinedEdge(s, s', k, x, x);
  }

  lemma JoinedPrev(s: Pool, s': Pool, k: nat, x: nat, head: nat)
    requires Moving(s, x) && Joins(s, s', k, x, head) && FreeAt(s.kind, s.free[k]) && x != head && NotFreeAfter(s, x)
    ensures Moving(s', head) && SameBlocks(s, s') && |s'.kind| == |s.kind| && NotFreeAfter(s', head) &&
            (head > 0 ==> !s'.kind[head - 1].sort.Free?)
  {
    JoinedMoving(s, s', k, x, head);
    JoinedPrevEdge(s, s', k, x, head);
  }

  lemma JoinedPrevEdge(s: Pool, s': Pool, k: nat, x: nat, head: nat)
    requires InTransit(s, x) && Joins(s, s', k, x, head) && FreeAt(s.kind, s.free[k]) && x != head && NotFreeAfter(s, x)
    ensures head < |s'.kind| && NotFreeAfter(s', head) && (head > 0 ==> !s'.kind[head - 1].sort.Free?)
  {
    JoinedEdge(s, s', k, x, head);
  }

  lemma NextJoined(s: Pool, k: nat, x: nat)
    requires Moving(s, x) && k < |s.free| && FreeAt(s.kind, s.free[k]) && x + s.kind[x].len == s.free[k]
    ensures TakeReady(s, k) && x != s.free[k]
    ensures var s' := Absorbed(s, k, x, x);
            Moving(s', x) && SameBlocks(s, s') && |s'.kind| == |s.kind| && NotFreeAfter(s', x)
  {
    AbsorbedJoins(s, k, x, x);
    JoinedNext(s, Absorbed(s, k, x, x), k, x);
  }

  lemma PrevJoined(s: Pool, k: nat, x: nat, head: nat)
    requires Moving(s, x) && k < |s.free| && FreeAt(s.kind, s.free[k]) && head == s.free[k] &&
             head + s.kind[head].len == x && NotFreeAfter(s, x)
    ensures TakeReady(s, k) && x != head
    ensures var s' := Absorbed(s, k, x, head);
      Moving(s', head) && SameBlocks(s, s') && |s'.kind| == |s.kind| && NotFreeAfter(s', head) &&
        (head > 0 ==> !s'.kind[head - 1].sort.Free?)
  {
    AbsorbedJoins(s, k, x, head);
    JoinedPrev(s, Absorbed(s, k, x, head), k, x, head);
  }

  lemma SameBlocksTrans(s: Pool, s': Pool, s'': Pool)
    requires Shape(s) && Shape(s') && Shape(s'') && SameBlocks(s, s') && SameBlocks(s', s'')
    ensures SameBlocks(s, s'')
  {
    forall a: nat ensures SizeAt(s'', a) == SizeAt(s, a) {
      assert SizeAt(s'', a) == SizeAt(s', a) == SizeAt(s, a);
    }
  }

  ghost predicate NotFreeAfter(s: Pool, x: nat)
    requires x < |s.kind|
  {
    x + s.kind[x].len < |s.kind| ==> !s.kind[x + s.kind[x].len].sort.Free?
  }

  /** Lines 696-701: how the source recognises that the page behind the run x starts a free run. */
  lemma NextIsFree(s: Pool, x: nat)
    requires InTransit(s, x) && x + s.kind[x].len < |s.kind|
    ensures var j := x + s.kind[x].len;
      (s.d[Page(j)].tag == PageTag && s.d[Page(j)].next != Null <==> s.kind[j].sort.Free?) &&
        (s.kind[j].sort.Free? ==> FreeAt(s.kind, j))
  {
    var j := x + s.kind[x].len;
    NextHead(s.kind, x);
    assert DescOk(s, j);
  }

  /** Lines 716-726: how the source finds the head of a free run that ends before x. */
  function PrevHead(s: Pool, x: nat): Ref
    requires x > 0 && Page(x - 1) in s.d
  {
    if s.d[Page(x - 1)].slab == 0 then s.d[Page(x - 1)].prev else Page(x - 1)
  }

  lemma PrevIsFree(s: Pool, x: nat)
    requires InTransit(s, x) && x > 0
    ensures s.d[Page(x - 1)].tag == PageTag ==> PrevHead(s, x) in s.d
    ensures s.d[Page(x - 1)].tag == PageTag && s.d[PrevHead(s, x)].next != Null <==> s.kind[x - 1].sort.Free?
    ensures s.kind[x - 1].sort.Free? ==>
      PrevHead(s, x).Page? && FreeAt(s.kind, PrevHead(s, x).i) && PrevHead(s, x).i + s.kind[PrevHead(s, x).i].len == x
  {
    PrevTail(s.kind, x);
    assert DescOk(s, x - 1);
    SamePiece(s.kind, x - 1, s.kind[x - 1].start);
    assert DescOk(s, s.kind[x - 1].start);
  }
}
