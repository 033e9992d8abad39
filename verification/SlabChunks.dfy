/**
 The three bitmap encodings of chunk pages in src/core/ngx_slab.c: the scans, marks
 and tests the allocator performs on them, related to the set of used chunks.
 */
module SlabChunks {
  import opened Words
  import opened SlabList
  import opened SlabLayout

  lemma SmallPowers()
    ensures Pow2(3) == 8 && Pow2(4) == 16 && Pow2(5) == 32 && Pow2(6) == 64 && Pow2(7) == 128 && Pow2(8) == 256 &&
            Pow2(9) == 512
  {
  }

  lemma Constants()
    ensures Pow2(MAP_SHIFT) == MAP_UNIT && Pow2(WORD) == BUSY + 1 && Pow2(PAGE_SHIFT) == PAGE_SIZE
  {
    SmallPowers();
    PowAdd(8, 4);
    PowAdd(8, 8);
    PowAdd(16, 16);
    PowAdd(32, 32);
  }

  // ----- 64-bit words -----

  lemma WordClearBit(w: nat) returns (i: nat)
    requires w < BUSY
    ensures i < WORD && !Bit(w, i)
  {
    Constants();
    i := SomeClearBit(w, WORD);
  }

  lemma WordSetBit(w: nat) returns (i: nat)
    requires 0 < w <= BUSY
    ensures i < WORD && Bit(w, i)
  {
    Constants();
    i := SomeSetBit(w, WORD);
  }

  lemma WordHighBit(w: nat, h: nat) returns (i: nat)
    requires Pow2(h) <= w <= BUSY
    ensures h <= i < WORD && Bit(w, i)
  {
    Constants();
    i := SomeHighBit(w, h, WORD);
  }

  lemma WordMarked(w: nat, i: nat)
    requires w <= BUSY && i < WORD && !Bit(w, i)
    ensures w + Pow2(i) <= BUSY
  {
    Constants();
    SetBitBound(w, i, WORD);
  }

  lemma WordOnes(i: nat)
    requires i < WORD
    ensures Bit(BUSY, i)
  {
    Constants();
    LowOnes(WORD, i);
  }

  lemma Counts(shift: nat)
    requires 3 <= shift < PAGE_SHIFT
    ensures shift < EXACT_SHIFT ==> Count(shift) == WORD * MapWords(shift)
    ensures shift == EXACT_SHIFT ==> Count(shift) == WORD
    ensures shift > EXACT_SHIFT ==> 2 <= Count(shift) <= 32
    ensures Header(shift) < Count(shift)
  {
    SmallPowers();
    assert shift == 7 ==> Count(shift) == Pow2(5);
    assert shift == 8 ==> Count(shift) == Pow2(4);
    assert shift == 9 ==> Count(shift) == Pow2(3);
    assert shift == 10 ==> Count(shift) == 4;
    assert shift == 11 ==> Count(shift) == 2;
  }

  /** The header is what the source computes, and the in-page bitmap fits in it. */
  lemma HeaderIsSource(shift: nat)
    requires 3 <= shift < EXACT_SHIFT
    ensures var n := Count(shift) / 8 / Pow2(shift); Header(shift) == if n == 0 then 1 else n
    ensures MapWords(shift) == Count(shift) / WORD
    ensures 8 * MapWords(shift) <= Header(shift) * Pow2(shift)
    ensures Header(shift) < WORD
  {
    SmallPowers();
    Counts(shift);
  }

  /** The bits of a BIG page's slab word above the shift. */
  function MapOf(slab: nat): nat { slab / MAP_UNIT }

  lemma BigUsed(slab: nat, k: nat)
    ensures Bit(slab, MAP_SHIFT + k) <==> Bit(MapOf(slab), k)
  {
    Constants();
    ShiftedBit(MapOf(slab), slab % MAP_UNIT, MAP_SHIFT, k);
  }

  // ----- setting and clearing a chunk's bit -----

  function MarkSlab(slab: nat, shift: nat, k: nat): nat {
    if shift < EXACT_SHIFT then slab else if shift == EXACT_SHIFT then slab + Pow2(k) else slab + Pow2(MAP_SHIFT + k)
  }

  function MarkBits(bits: seq<nat>, shift: nat, k: nat): seq<nat>
    requires shift < EXACT_SHIFT ==> k / WORD < |bits|
  {
    if shift < EXACT_SHIFT then bits[k / WORD := bits[k / WORD] + Pow2(k % WORD)] else bits
  }

  lemma MarkUsed(slab: nat, bits: seq<nat>, shift: nat, k: nat, j: nat)
    requires 3 <= shift < PAGE_SHIFT && Encoded(slab, bits, shift) && k < Count(shift) && !Used(slab, bits, shift, k)
    requires shift < EXACT_SHIFT ==> k / WORD < |bits|
    ensures Used(MarkSlab(slab, shift, k), MarkBits(bits, shift, k), shift, j) <==> j == k || Used(slab, bits, shift, j)
  {
    if shift < EXACT_SHIFT {
      SetBit(bits[k / WORD], k % WORD, j % WORD);
      assert j == k <==> j / WORD == k / WORD && j % WORD == k % WORD;
    } else if shift == EXACT_SHIFT {
      SetBit(slab, k, j);
    } else {
      SetBit(slab, MAP_SHIFT + k, MAP_SHIFT + j);
    }
  }

  lemma BigMarked(slab: nat, k: nat)
    ensures (slab + Pow2(MAP_SHIFT + k)) % MAP_UNIT == slab % MAP_UNIT
    ensures MapOf(slab + Pow2(MAP_SHIFT + k)) == MapOf(slab) + Pow2(k)
  {
    Constants();
    PowAdd(MAP_SHIFT, k);
  }

  lemma MarkEncoded(slab: nat, bits: seq<nat>, shift: nat, k: nat)
    requires 3 <= shift < PAGE_SHIFT && Encoded(slab, bits, shift) && k < Count(shift) && !Used(slab, bits, shift, k)
    ensures shift < EXACT_SHIFT ==> k / WORD < |bits|
    ensures Encoded(MarkSlab(slab, shift, k), MarkBits(bits, shift, k), shift)
  {
    Counts(shift);
    if shift < EXACT_SHIFT {
      WordMarked(bits[k / WORD], k % WORD);
    } else if shift == EXACT_SHIFT {
      WordMarked(slab, k);
    } else {
      BigUsed(slab, k);
      SetBitBound(MapOf(slab), k, Count(shift));
      BigMarked(slab, k);
    }
    forall j | 0 <= j < Header(shift) ensures Used(MarkSlab(slab, shift, k), MarkBits(bits, shift, k), shift, j) {
      MarkUsed(slab, bits, shift, k, j);
    }
  }

  function ClearSlab(slab: nat, shift: nat, k: nat): nat
    requires shift == EXACT_SHIFT ==> slab >= Pow2(k)
    requires shift > EXACT_SHIFT ==> slab >= Pow2(MAP_SHIFT + k)
  {
    if shift < EXACT_SHIFT then slab else if shift == EXACT_SHIFT then slab - Pow2(k) else slab - Pow2(MAP_SHIFT + k)
  }

  function ClearBits(bits: seq<nat>, shift: nat, k: nat): seq<nat>
    requires shift < EXACT_SHIFT ==> k / WORD < |bits| && bits[k / WORD] >= Pow2(k % WORD)
  {
    if shift < EXACT_SHIFT then bits[k / WORD := bits[k / WORD] - Pow2(k % WORD)] else bits
  }

  lemma ClearDefined(slab: nat, bits: seq<nat>, shift: nat, k: nat)
    requires Used(slab, bits, shift, k)
    ensures shift == EXACT_SHIFT ==> slab >= Pow2(k)
    ensures shift > EXACT_SHIFT ==> slab >= Pow2(MAP_SHIFT + k)
    ensures shift < EXACT_SHIFT ==> k / WORD < |bits| && bits[k / WORD] >= Pow2(k % WORD)
  {
    if shift < EXACT_SHIFT { BitValue(bits[k / WORD], k % WORD); }
    else if shift == EXACT_SHIFT { BitValue(slab, k); }
    else { BitValue(slab, MAP_SHIFT + k); }
  }

  lemma ClearUsed(slab: nat, bits: seq<nat>, shift: nat, k: nat, j: nat)
    requires Used(slab, bits, shift, k)
    requires shift == EXACT_SHIFT ==> slab >= Pow2(k)
    requires shift > EXACT_SHIFT ==> slab >= Pow2(MAP_SHIFT + k)
    requires shift < EXACT_SHIFT ==> k / WORD < |bits| && bits[k / WORD] >= Pow2(k % WORD)
    ensures Used(ClearSlab(slab, shift, k), ClearBits(bits, shift, k), shift, j) <==>
            j != k && Used(slab, bits, shift, j)
  {
    if shift < EXACT_SHIFT {
      ClearBit(bits[k / WORD], k % WORD, j % WORD);
      assert j == k <==> j / WORD == k / WORD && j % WORD == k % WORD;
    } else if shift == EXACT_SHIFT {
      ClearBit(slab, k, j);
    } else {
      ClearBit(slab, MAP_SHIFT + k, MAP_SHIFT + j);
    }
  }

  lemma ClearEncoded(slab: nat, bits: seq<nat>, shift: nat, k: nat)
    requires 3 <= shift < PAGE_SHIFT && Encoded(slab, bits, shift) && Header(shift) <= k < Count(shift) &&
             Used(slab, bits, shift, k)
    requires shift == EXACT_SHIFT ==> slab >= Pow2(k)
    requires shift > EXACT_SHIFT ==> slab >= Pow2(MAP_SHIFT + k)
    requires shift < EXACT_SHIFT ==> k / WORD < |bits| && bits[k / WORD] >= Pow2(k % WORD)
    ensures Encoded(ClearSlab(slab, shift, k), ClearBits(bits, shift, k), shift)
  {
    if shift > EXACT_SHIFT {
      BigMarked(slab - Pow2(MAP_SHIFT + k), k);
    }
    forall j | 0 <= j < Header(shift) ensures Used(ClearSlab(slab, shift, k), ClearBits(bits, shift, k), shift, j) {
      ClearUsed(slab, bits, shift, k, j);
    }
  }

  // ----- the tests of the source -----

  /** Lines 211-230, 264, 306: no room left in the page. */
  predicate IsFull(slab: nat, bits: seq<nat>, shift: nat)
    requires shift <= PAGE_SHIFT
  {
    if shift < EXACT_SHIFT then forall w :: 0 <= w < |bits| ==> bits[w] == BUSY
    else if shift == EXACT_SHIFT then slab == BUSY
    else MapOf(slab) == Pow2(Count(shift)) - 1
  }

  lemma FullIff(slab: nat, bits: seq<nat>, shift: nat)
    requires 3 <= shift < PAGE_SHIFT && Encoded(slab, bits, shift)
    ensures IsFull(slab, bits, shift) <==> Full(slab, bits, shift)
  {
    Counts(shift);
    if IsFull(slab, bits, shift) {
      forall k | 0 <= k < Count(shift) ensures Used(slab, bits, shift, k) {
        if shift < EXACT_SHIFT { WordOnes(k % WORD); }
        else if shift == EXACT_SHIFT { WordOnes(k); }
        else { LowOnes(Count(shift), k); BigUsed(slab, k); }
      }
    } else {
      var k := RoomIn(slab, bits, shift);
    }
  }

  lemma RoomIn(slab: nat, bits: seq<nat>, shift: nat) returns (k: nat)
    requires 3 <= shift < PAGE_SHIFT && Encoded(slab, bits, shift) && !IsFull(slab, bits, shift)
    ensures k < Count(shift) && !Used(slab, bits, shift, k)
  {
    Counts(shift);
    if shift < EXACT_SHIFT {
      var w :| 0 <= w < |bits| && bits[w] != BUSY;
      k := WordClearBit(bits[w]);
      k := w * WORD + k;
    } else if shift == EXACT_SHIFT {
      k := WordClearBit(slab);
    } else {
      k := SomeClearBit(MapOf(slab), Count(shift));
      BigUsed(slab, k);
    }
  }

  /** Lines 471-481, 515, 554: no chunk left in the page. */
  predicate IsEmpty(slab: nat, bits: seq<nat>, shift: nat)
    requires shift <= PAGE_SHIFT
  {
    if shift < EXACT_SHIFT then |bits| > 0 && bits[0] < Pow2(Header(shift)) && forall w :: 1 <= w < |bits| ==>
      bits[w] == 0
    else if shift == EXACT_SHIFT then slab == 0
    else MapOf(slab) == 0
  }

  lemma SomeChunk(slab: nat, bits: seq<nat>, shift: nat) returns (k: nat)
    requires 3 <= shift < PAGE_SHIFT && Encoded(slab, bits, shift) && !IsEmpty(slab, bits, shift)
    ensures Header(shift) <= k < Count(shift) && Used(slab, bits, shift, k)
  {
    Counts(shift);
    if shift < EXACT_SHIFT {
      HeaderIsSource(shift);
      if bits[0] >= Pow2(Header(shift)) {
        k := WordHighBit(bits[0], Header(shift));
      } else {
        var w :| 1 <= w < |bits| && bits[w] != 0;
        k := WordSetBit(bits[w]);
        k := w * WORD + k;
      }
    } else if shift == EXACT_SHIFT {
      k := WordSetBit(slab);
    } else {
      k := SomeSetBit(MapOf(slab), Count(shift));
      BigUsed(slab, k);
    }
  }

  lemma EmptyIff(slab: nat, bits: seq<nat>, shift: nat)
    requires 3 <= shift < PAGE_SHIFT && Encoded(slab, bits, shift)
    ensures IsEmpty(slab, bits, shift) <==> Empty(slab, bits, shift)
  {
    if IsEmpty(slab, bits, shift) {
      forall k | Header(shift) <= k < Count(shift) ensures !Used(slab, bits, shift, k) {
        EmptyAt(slab, bits, shift, k);
      }
    } else {
      var k := SomeChunk(slab, bits, shift);
    }
  }

  lemma EmptyAt(slab: nat, bits: seq<nat>, shift: nat, k: nat)
    requires 3 <= shift < PAGE_SHIFT && Encoded(slab, bits, shift) && IsEmpty(slab, bits, shift) && Header(shift) <= k
    ensures !Used(slab, bits, shift, k)
  {
    if shift < EXACT_SHIFT {
      if k / WORD == 0 { NoHighBit(bits[0], Header(shift), k); } else { ZeroBit(k % WORD); }
    } else if shift == EXACT_SHIFT {
      ZeroBit(k);
    } else {
      BigUsed(slab, k);
      ZeroBit(k);
    }
  }

  // ----- a fresh chunk page -----

  /** Lines 352, 365, 378 */
  function FreshSlab(shift: nat): nat {
    if shift < EXACT_SHIFT then shift else if shift == EXACT_SHIFT then 1 else MAP_UNIT + shift
  }

  /** Lines 344-350: bitmap[0] = (2 << n) - 1, the other words 0 */
  function FreshBits(shift: nat): seq<nat> {
    if shift < EXACT_SHIFT then [Pow2(Header(shift) + 1) - 1] + seq(MapWords(shift) - 1, _ => 0) else []
  }

  lemma FreshUsed(shift: nat, k: nat)
    requires 3 <= shift < PAGE_SHIFT
    ensures Used(FreshSlab(shift), FreshBits(shift), shift, k) <==> k <= Header(shift)
  {
    if shift < EXACT_SHIFT {
      HeaderIsSource(shift);
      if k / WORD == 0 {
        LowOnes(Header(shift) + 1, k);
      } else if k / WORD < MapWords(shift) {
        ZeroBit(k % WORD);
      }
    } else if shift == EXACT_SHIFT {
      LowOnes(1, k);
    } else {
      BigUsed(FreshSlab(shift), k);
      LowOnes(1, k);
    }
  }

  lemma FreshEncoded(shift: nat)
    requires 3 <= shift < PAGE_SHIFT
    ensures Encoded(FreshSlab(shift), FreshBits(shift), shift)
    ensures !Full(FreshSlab(shift), FreshBits(shift), shift)
  {
    Counts(shift);
    if shift < EXACT_SHIFT {
      HeaderIsSource(shift);
      SmallPowers();
    } else if shift > EXACT_SHIFT {
      PowMono(1, Count(shift));
    }
    forall k | 0 <= k < Header(shift) ensures Used(FreshSlab(shift), FreshBits(shift), shift, k) {
      FreshUsed(shift, k);
    }
    FreshUsed(shift, Count(shift) - 1);
    FreshHasRoom(shift);
  }

  lemma FreshHasRoom(shift: nat)
    requires 3 <= shift < PAGE_SHIFT
    ensures Header(shift) + 1 < Count(shift)
  {
    Counts(shift);
  }
}
