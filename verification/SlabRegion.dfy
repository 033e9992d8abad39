/**
 ngx_slab_init (src/core/ngx_slab.c, lines 72-145): where in the shared memory region the list
 heads, the page descriptors and the pages go.  The region, after the pool's own fields, is the
 addresses from p up to end.
 */
module SlabRegion {
  import opened SlabList
  import opened SlabLayout
  import opened SlabBlocks
  import Slab

  const DESC_SIZE := 24                       // sizeof(ngx_slab_page_t)
  const ADDRESSES := 0x1_0000_0000_0000_0000  // the range of size_t

  /** The bytes of the list heads, one per size class. */
  function HeadSize(minShift: nat): nat
    requires minShift <= PAGE_SHIFT
  {
    (PAGE_SHIFT - minShift) * DESC_SIZE
  }

  /** ngx_align_ptr */
  function AlignPage(a: nat): nat { (a + PAGE_SIZE - 1) / PAGE_SIZE * PAGE_SIZE }

  lemma AlignPageIs(a: nat)
    ensures a <= AlignPage(a) < a + PAGE_SIZE && AlignPage(a) % PAGE_SIZE == 0
  {
  }

  /** An unsigned difference, stored in ngx_int_t. */
  function Signed(x: int): int { var r := x % ADDRESSES; if r < ADDRESSES / 2 then r else r - ADDRESSES }

  lemma SignedIs(x: int)
    requires -ADDRESSES / 2 <= x < ADDRESSES / 2
    ensures Signed(x) == x
  {
  }

  lemma Borrow(x: int)
    requires -ADDRESSES <= x < 0
    ensures x % ADDRESSES == x + ADDRESSES
  {
  }

  /** How many pages and descriptors fit, at most. */
  function AtMost(p: nat, end: nat): nat
    requires p <= end
  {
    (end - p) / (PAGE_SIZE + DESC_SIZE)
  }

  /**
   The descriptors lie between the heads and the pages, and the pages end before the region does, unless a
   single page was counted on and aligning its address left no room for any.
   */
  method Layout(p: nat, end: nat, minShift: nat) returns (pages: nat, start: nat)
    requires 3 <= minShift < PAGE_SHIFT && p <= end && end + 2 * PAGE_SIZE <= ADDRESSES
    ensures start == AlignPage(p + HeadSize(minShift) + AtMost(p, end) * DESC_SIZE) && start % PAGE_SIZE == 0
    ensures pages == if start <= end && (end - start) / PAGE_SIZE < AtMost(p, end) then (end - start) / PAGE_SIZE
                     else AtMost(p, end)
    ensures p + HeadSize(minShift) + pages * DESC_SIZE <= start
    ensures start + pages * PAGE_SIZE <= end <==> start <= end
    ensures AtMost(p, end) - 2 <= pages
    ensures AtMost(p, end) >= 2 ==> start <= end
  {
    var n := PAGE_SHIFT - minShift;
    var q := p + n * DESC_SIZE;
    pages := AtMost(p, end);
    start := AlignPage(q + pages * DESC_SIZE);
    AlignPageIs(q + pages * DESC_SIZE);
    Fits(p, end, n, pages, start);
    var room := (end - start) % ADDRESSES / PAGE_SIZE;
    var m := Signed(pages - room);
    RoomIs(end, start, pages, room);
    if m > 0 {
      pages := pages - m;
    }
  }

  lemma Fits(p: nat, end: nat, n: nat, pages: nat, start: nat)
    requires p <= end && n <= 9 && pages == AtMost(p, end)
    requires start < p + n * DESC_SIZE + pages * DESC_SIZE + PAGE_SIZE
    ensures end - start > (pages - 1) * PAGE_SIZE - n * DESC_SIZE && (start > end ==> pages <= 1)
    ensures pages >= 2 ==> (end - start) / PAGE_SIZE >= pages - 2
  {
    assert pages * (PAGE_SIZE + DESC_SIZE) <= end - p;
  }

  lemma RoomIs(end: nat, start: nat, pages: nat, room: nat)
    requires end < ADDRESSES && start < ADDRESSES && pages <= ADDRESSES / PAGE_SIZE && (start > end ==> pages <= 1)
    requires start <= end + 2 * PAGE_SIZE && room == (end - start) % ADDRESSES / PAGE_SIZE
    ensures start <= end ==> room == (end - start) / PAGE_SIZE && Signed(pages - room) == pages - room
    ensures start > end ==> Signed(pages - room) <= 0
  {
    if start > end { Borrow(end - start); }
    SignedIs(pages - room);
  }

  /** One page counted on, and no room for it: the pool believes in a page behind its region. */
  method NoRoom() returns (pages: nat, start: nat)
    ensures pages == 1 && start > 7960 + PAGE_SIZE + DESC_SIZE
  {
    pages, start := Layout(7960, 7960 + PAGE_SIZE + DESC_SIZE, 3);
    assert AlignPage(7960 + HeadSize(3) + DESC_SIZE) == 3 * PAGE_SIZE;
  }

  /**
   The region holds a pool exactly if a page lies inside it, which is so with room for three pages and their
   descriptors; null stands for a pool that has no page, or one that is not there.
   */
  method Init(p: nat, end: nat, minShift: nat) returns (pool: Slab.SlabPool?, start: nat)
    requires 3 <= minShift < PAGE_SHIFT && p <= end && end + 2 * PAGE_SIZE <= ADDRESSES
    ensures start == AlignPage(p + HeadSize(minShift) + AtMost(p, end) * DESC_SIZE) && start % PAGE_SIZE == 0
    ensures pool != null <==> AtMost(p, end) > 0 && start + PAGE_SIZE <= end
    ensures AtMost(p, end) >= 3 ==> pool != null
    ensures pool != null ==> fresh(pool) && pool.Ok() && pool.minShift == minShift && pool.extent == end - start
    ensures pool != null ==> p + HeadSize(minShift) + pool.pages * DESC_SIZE <= start
    ensures pool != null ==> pool.pages >= AtMost(p, end) - 2 && start + pool.pages * PAGE_SIZE <= end
    ensures pool != null ==> forall a: nat :: SizeAt(pool.View(), a) == 0
  {
    var pages;
    pages, start := Layout(p, end, minShift);
    pool := null;
    if pages > 0 && start <= end {
      pool := new Slab.SlabPool(pages, minShift, end - start);
    }
  }
}
