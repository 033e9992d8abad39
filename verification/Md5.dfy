/**
 Streaming and padding in src/core/ngx_md5.c, lines 22-115, against sections 3.1 to 3.5 of
 RFC 1321.  The four rounds of ngx_md5_body on one 64-byte block are a function f given
 from outside; what is proved holds for every f.
 */
module Md5 {

  type Byte = x: int | 0 <= x < 256
  type Uint32 = x: int | 0 <= x < 0x1_0000_0000

  const BLOCK := 64
  const TWO64 := 0x1_0000_0000_0000_0000

  /** The four words of the state. */
  datatype Words = Words(a: Uint32, b: Uint32, c: Uint32, d: Uint32)

  type Round = (Words, seq<Byte>) -> Words

  const INITIAL := Words(0x67452301, 0xefcdab89, 0x98badcfe, 0x10325476)

  // ----- the reference -----

  /** The block function folded over a whole number of blocks. */
  function Fold(f: Round, w: Words, s: seq<Byte>): Words
    decreases |s|
  {
    if |s| < BLOCK then w else Fold(f, f(w, s[..BLOCK]), s[BLOCK..])
  }

  function Zeros(n: nat): (s: seq<Byte>)
    ensures |s| == n && forall i :: 0 <= i < n ==> s[i] == 0
  {
    seq(n, _ => 0)
  }

  function LE64(w: nat): seq<Byte> {
    [w % 256, w / 0x100 % 256, w / 0x10000 % 256, w / 0x1000000 % 256,
     w / 0x100000000 % 256, w / 0x10000000000 % 256, w / 0x1000000000000 % 256, w / 0x100000000000000 % 256]
  }

  function LE32(w: nat): seq<Byte> {
    [w % 256, w / 0x100 % 256, w / 0x10000 % 256, w / 0x1000000 % 256]
  }

  /** The number that bytes stand for, the low-order byte first. */
  function FromLE(s: seq<Byte>): nat { if s == [] then 0 else s[0] + 256 * FromLE(s[1..]) }

  /** Zeros that bring the length to 56 modulo 64, section 3.1. */
  function PadZeros(n: nat): nat { (119 - n % BLOCK) % BLOCK }

  /** Sections 3.1 and 3.2: a one bit, zeros, and the length in bits modulo 2^64. */
  function Pad(msg: seq<Byte>): seq<Byte> {
    msg + [0x80] + Zeros(PadZeros(|msg|)) + LE64(8 * |msg| % TWO64)
  }

  /** Section 3.5: the words, low-order bytes first. */
  function Output(w: Words): seq<Byte> { LE32(w.a) + LE32(w.b) + LE32(w.c) + LE32(w.d) }

  function Digest(f: Round, msg: seq<Byte>): seq<Byte> { Output(Fold(f, INITIAL, Pad(msg))) }

  // ----- facts about the reference -----

  lemma PadLength(msg: seq<Byte>)
    ensures (|msg| + 1 + PadZeros(|msg|)) % BLOCK == 56 && |Pad(msg)| % BLOCK == 0 && PadZeros(|msg|) < BLOCK
  {
    var r, q := |msg| % BLOCK, |msg| / BLOCK;
    PadIs(BLOCK * q, r);
    PadLengthIs(q, r);
  }

  lemma PadLengthIs(q: nat, r: nat)
    requires r < BLOCK
    ensures var z := if r < 56 then 55 - r else 119 - r;
            (BLOCK * q + r + 1 + z) % BLOCK == 56 && (BLOCK * q + r + 1 + z + 8) % BLOCK == 0
  {
  }

  /** The digest holds the four words, each with its low-order byte first. */
  lemma OutputIs(w: Words)
    ensures |Output(w)| == 16
    ensures FromLE(Output(w)[0..4]) == w.a && FromLE(Output(w)[4..8]) == w.b
    ensures FromLE(Output(w)[8..12]) == w.c && FromLE(Output(w)[12..16]) == w.d
  {
    var s := Output(w);
    assert s[0..4] == LE32(w.a) && s[4..8] == LE32(w.b) && s[8..12] == LE32(w.c) && s[12..16] == LE32(w.d);
    LE32Is(w.a);
    LE32Is(w.b);
    LE32Is(w.c);
    LE32Is(w.d);
  }

  lemma LE32Is(w: Uint32)
    ensures FromLE(LE32(w)) == w
  {
    var a, b, c := w / 0x100, w / 0x10000, w / 0x1000000;
    assert a == w / 256 && b == a / 256 && c == b / 256 && c < 256;
    FromFour(w % 256, a % 256, b % 256, c);
  }

  lemma FromFour(x: Byte, y: Byte, z: Byte, u: Byte)
    ensures FromLE([x, y, z, u]) == x + 256 * (y + 256 * (z + 256 * u))
  {
    var s := [x, y, z, u];
    assert FromLE(s[3..]) == u by { assert s[3..][1..] == []; }
    assert FromLE(s[2..]) == z + 256 * u by { assert s[2..][1..] == s[3..]; }
    assert FromLE(s[1..]) == y + 256 * (z + 256 * u) by { assert s[1..][1..] == s[2..]; }
  }

  lemma {:induction false} FoldJoin(f: Round, w: Words, s: seq<Byte>, t: seq<Byte>)
    requires |s| % BLOCK == 0
    ensures Fold(f, w, s + t) == Fold(f, Fold(f, w, s), t)
    decreases |s|
  {
    if s == [] {
      assert s + t == t;
    } else {
      assert (s + t)[..BLOCK] == s[..BLOCK] && (s + t)[BLOCK..] == s[BLOCK..] + t;
      FoldJoin(f, f(w, s[..BLOCK]), s[BLOCK..], t);
    }
  }

  /** The low bits of the wrapped byte count are the bytes in the buffer. */
  lemma UsedIs(n: nat, m: nat)
    requires m % BLOCK == 0 && m <= n < m + BLOCK
    ensures n % TWO64 % BLOCK == n - m
  {
    var q, r := n / TWO64, n % TWO64;
    assert n == BLOCK * (0x400_0000_0000_0000 * q) + r;
    assert r % BLOCK == n % BLOCK;
  }

  // ----- the context -----

  class Md5 {
    const f: Round
    const buffer: array<Byte>
    var words: Words
    var bytes: nat                // a uint64_t
    ghost var folded: seq<Byte>   // the whole blocks so far
    ghost var rest: seq<Byte>     // the bytes after them

    ghost function Message(): seq<Byte>
      reads this
    {
      folded + rest
    }

    /** The whole blocks are folded in, the rest is in the buffer. */
    ghost predicate Valid()
      reads this, buffer
    {
      && buffer.Length == BLOCK && bytes == (|folded| + |rest|) % TWO64
      && |folded| % BLOCK == 0 && |rest| < BLOCK
      && words == Fold(f, INITIAL, folded) && buffer[..|rest|] == rest
    }

    /** ngx_md5_init */
    constructor (f: Round)
      ensures Valid() && Message() == [] && this.f == f && fresh(buffer)
    {
      this.f := f;
      buffer := new Byte[BLOCK](_ => 0);
      words, bytes, folded, rest := INITIAL, 0, [], [];
    }

    /** ngx_md5_body on data of at least one block. */
    method Body(data: seq<Byte>)
      requires |data| % BLOCK == 0 && data != [] && words == Fold(f, INITIAL, folded) && |folded| % BLOCK == 0
      modifies this`words, this`folded
      ensures folded == old(folded) + data && words == Fold(f, INITIAL, folded) && |folded| % BLOCK == 0
    {
      var p := 0;
      assert data[0..] == data;
      while p < |data|
        invariant 0 <= p <= |data| && (|data| - p) % BLOCK == 0 && folded == old(folded)
        invariant Fold(f, old(words), data) == Fold(f, words, data[p..])
      {
        assert data[p..][..BLOCK] == data[p..p + BLOCK] && data[p..][BLOCK..] == data[p + BLOCK..];
        words := f(words, data[p..p + BLOCK]);
        p := p + BLOCK;
      }
      FoldJoin(f, INITIAL, folded, data);
      folded := folded + data;
    }

    /** ngx_memcpy(&ctx->buffer[at], data, |data|) */
    method Copy(at: nat, data: seq<Byte>)
      requires at + |data| <= buffer.Length
      modifies buffer
      ensures buffer[..at + |data|] == old(buffer[..at]) + data
    {
      forall i | 0 <= i < |data| { buffer[at + i] := data[i]; }
    }

    /** ngx_md5_update */
    method Update(data: seq<Byte>)
      requires Valid()
      modifies this`words, this`bytes, this`folded, this`rest, buffer
      ensures Valid() && Message() == old(Message()) + data
    {
      UsedIs(|folded| + |rest|, |folded|);
      var used := bytes % BLOCK;
      Add(|data|);
      Take(used, data);
      assert |Message()| == |old(Message())| + |data|;
    }

    /** Lines 39-62 */
    method Take(used: nat, data: seq<Byte>)
      requires buffer.Length == BLOCK && |folded| % BLOCK == 0 && words == Fold(f, INITIAL, folded) &&
               used == |rest| < BLOCK && buffer[..used] == rest
      modifies this`words, this`folded, this`rest, buffer
      ensures |folded| % BLOCK == 0 && |rest| < BLOCK && words == Fold(f, INITIAL, folded) && buffer[..|rest|] == rest
      ensures Message() == old(Message()) + data
    {
      var todo := data;
      ghost var first := Message();
      if used > 0 {
        var free := BLOCK - used;
        if |data| < free {
          Copy(used, data);
          rest := rest + data;
          assert Message() == first + data;
          return;
        }
        Copy(used, data[..free]);
        assert buffer[..] == rest + data[..free];
        todo := data[free..];
        Body(buffer[..]);
        rest := [];
        assert folded == first + data[..free];
      }
      ghost var done := folded;
      Bulk(todo);
      assert done + todo == first + data;
    }

    /** ctx->bytes += size */
    method Add(size: nat)
      requires bytes == (|folded| + |rest|) % TWO64
      modifies this`bytes
      ensures bytes == (|folded| + |rest| + size) % TWO64
    {
      bytes := (bytes + size) % TWO64;
    }

    /** Lines 56-61: whole blocks straight from the data, what remains to the buffer. */
    method Bulk(data: seq<Byte>)
      requires buffer.Length == BLOCK && rest == [] && |folded| % BLOCK == 0 && words == Fold(f, INITIAL, folded)
      modifies this`words, this`folded, this`rest, buffer
      ensures |folded| % BLOCK == 0 && |rest| < BLOCK && words == Fold(f, INITIAL, folded) && buffer[..|rest|] == rest
      ensures Message() == old(folded) + data
    {
      var todo := data;
      if |data| >= BLOCK {
        var whole := Whole(|data|);
        Body(data[..whole]);
        todo := data[whole..];
        Assoc(old(folded), data, whole);
      }
      Copy(0, todo);
      rest := todo;
    }

    /** ngx_memzero(&ctx->buffer[from], to - from) */
    method Zero(from: nat, to: nat)
      requires from <= to <= buffer.Length
      modifies buffer
      ensures buffer[..to] == old(buffer[..from]) + Zeros(to - from)
    {
      forall i | from <= i < to { buffer[i] := 0; }
    }

    /** Lines 72-81: the one bit, and zeros to the end of the block if the length does not fit into it. */
    method Finish() returns (used: nat)
      requires Valid()
      modifies this`words, this`folded, this`rest, buffer
      ensures used <= 56 && |folded| % BLOCK == 0 && words == Fold(f, INITIAL, folded) && buffer[..used] == rest &&
              |rest| == used
      ensures Message() + Zeros(56 - used) == old(Message()) + [0x80] + Zeros(PadZeros(|old(Message())|))
    {
      UsedIs(|folded| + |rest|, |folded|);
      used := bytes % BLOCK;
      buffer[used] := 0x80;
      used := used + 1;
      ghost var one := rest + [0x80];
      assert buffer[..used] == one;
      rest := one;
      PadIs(|folded|, used - 1);
      Regroup(folded, old(rest), [0x80], []);
      if BLOCK - used < 8 {
        FillUp(used);
        used := 0;
      }
    }

    /** Lines 77-80: zeros to the end of the block. */
    method FillUp(used: nat)
      requires buffer.Length == BLOCK && used <= BLOCK && |folded| % BLOCK == 0 && words == Fold(f, INITIAL, folded)
      requires buffer[..used] == rest && |rest| == used
      modifies this`words, this`folded, this`rest, buffer
      ensures rest == [] && |folded| % BLOCK == 0 && words == Fold(f, INITIAL, folded)
      ensures Message() + Zeros(56) == old(Message()) + Zeros(BLOCK - used + 56)
    {
      ghost var k := BLOCK - used;
      Zero(used, BLOCK);
      assert buffer[..] == rest + Zeros(k);
      assert Zeros(k) + Zeros(56) == Zeros(k + 56);
      Body(buffer[..]);
      Regroup(old(folded), rest, Zeros(k), Zeros(56));
      rest := [];
    }

    /** ngx_md5_final */
    method Final() returns (result: seq<Byte>)
      requires Valid()
      modifies this`words, this`bytes, this`folded, this`rest, buffer
      ensures result == Digest(f, old(Message()))
    {
      ghost var m := Message();
      var used := Finish();
      Close(used, m);
      result := Output(words);
      words, bytes := Words(0, 0, 0, 0), 0;
      Zero(0, BLOCK);
    }

    /** Lines 83-95: zeros and the length fill the last block. */
    method Close(used: nat, ghost m: seq<Byte>)
      requires buffer.Length == BLOCK && used <= 56 && |folded| % BLOCK == 0 && words == Fold(f, INITIAL, folded)
      requires buffer[..used] == rest && |rest| == used && bytes == |m| % TWO64
      requires Message() + Zeros(56 - used) == m + [0x80] + Zeros(PadZeros(|m|))
      modifies this`words, this`bytes, this`folded, buffer
      ensures words == Fold(f, INITIAL, Pad(m))
    {
      Zero(used, 56);
      var length := Length(|m|);
      Copy(56, length);
      assert buffer[..] == rest + Zeros(56 - used) + length;
      Regroup(folded, rest, Zeros(56 - used), length);
      Body(buffer[..]);
    }

    /** Lines 85-93 */
    method Length(ghost n: nat) returns (length: seq<Byte>)
      requires bytes == n % TWO64
      modifies this`bytes
      ensures length == LE64(8 * n % TWO64)
    {
      Shift(n);
      bytes := bytes * 8 % TWO64;
      length := [bytes % 256, bytes / 0x100 % 256, bytes / 0x10000 % 256, bytes / 0x1000000 % 256,
        bytes / 0x100000000 % 256, bytes / 0x10000000000 % 256, bytes / 0x1000000000000 % 256,
          bytes / 0x100000000000000 % 256];
    }
  }

  /** size & ~0x3f */
  method Whole(n: nat) returns (w: nat)
    ensures w % BLOCK == 0 && w <= n < w + BLOCK
  {
    w := n - n % BLOCK;
  }

  lemma Assoc(a: seq<Byte>, b: seq<Byte>, n: nat)
    requires n <= |b|
    ensures a + b[..n] + b[n..] == a + b
  {
  }

  lemma Regroup(a: seq<Byte>, b: seq<Byte>, c: seq<Byte>, d: seq<Byte>)
    ensures a + (b + c + d) == a + b + c + d && a + (b + c) + d == a + b + (c + d) && a + (b + c) == a + b + c
  {
  }

  /** The zeros of lines 77-83 are those of section 3.1. */
  lemma PadIs(m: nat, r: nat)
    requires m % BLOCK == 0 && r < BLOCK
    ensures PadZeros(m + r) == if r < 56 then 55 - r else 119 - r
  {
    assert (m + r) % BLOCK == r;
  }

  lemma Shift(n: nat)
    ensures (n % TWO64) * 8 % TWO64 == 8 * n % TWO64
  {
    var q, r := n / TWO64, n % TWO64;
    assert 8 * n == TWO64 * (8 * q) + 8 * r;
  }

  function Concat(parts: seq<seq<Byte>>): seq<Byte> {
    if parts == [] then [] else Concat(parts[..|parts| - 1]) + parts[|parts| - 1]
  }

  /** However a message is split into updates, the digest is that of the whole. */
  method DigestOf(f: Round, parts: seq<seq<Byte>>) returns (result: seq<Byte>)
    ensures result == Digest(f, Concat(parts))
  {
    var ctx := new Md5(f);
    for i := 0 to |parts|
      invariant ctx.Valid() && ctx.f == f && ctx.Message() == Concat(parts[..i])
      invariant fresh(ctx) && fresh(ctx.buffer)
    {
      ctx.Update(parts[i]);
      assert parts[..i + 1][..i] == parts[..i];
    }
    assert parts[..|parts|] == parts;
    result := ctx.Final();
  }
}
