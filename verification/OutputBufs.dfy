/**
 Buffers and chains of the output chain (src/core/ngx_buf.h, src/core/ngx_buf.c and
 src/core/ngx_output_chain.c) and what each step on them keeps.  A chain is the sequence
 of its buffers' ids; NULL is 0.
 */
module OutputBufs {

  type Id = nat
  type Byte = x: int | 0 <= x < 256

  /** ngx_file_t: what it holds and whether it is read past the cache. */
  datatype File = File(content: seq<Byte>, directio: bool)

  /** ngx_buf_t; mem is the memory from start to end, ours says that tag is the context's. */
  datatype Buf = Buf(
    temporary: bool, memory: bool, mmap: bool, mem: seq<Byte>, pos: nat, last: nat,
    inFile: bool, file: File, filePos: nat, fileLast: nat,
    flush: bool, sync: bool, lastBuf: bool, lastInChain: bool, recycled: bool, ours: bool)

  type Store = map<Id, Buf>

  /** ngx_buf_in_memory */
  predicate InMemory(b: Buf) { b.temporary || b.memory || b.mmap }

  /** ngx_buf_special */
  predicate Special(b: Buf) { (b.flush || b.lastBuf || b.sync) && !InMemory(b) && !b.inFile }

  /** Where the bytes are: those of Data from From to To. */
  function Data(b: Buf): seq<Byte> { if InMemory(b) then b.mem else b.file.content }

  function From(b: Buf): nat { if InMemory(b) then b.pos else b.filePos }

  function To(b: Buf): nat { if InMemory(b) then b.last else b.fileLast }

  /** ngx_buf_size */
  function Size(b: Buf): int { To(b) - From(b) }

  /** Positions are in order; without data there is no size; memory and file describe the same number of bytes. */
  predicate BufOk(b: Buf) {
    && b.pos <= b.last <= |b.mem| && b.filePos <= b.fileLast <= |b.file.content|
    && (InMemory(b) || b.inFile || b.filePos == b.fileLast) &&
       (b.ours ==> b.temporary && !b.memory && !b.mmap && |b.mem| > 0)
    && (InMemory(b) && b.inFile ==> b.fileLast - b.filePos == b.last - b.pos)
  }

  /** The bytes a buffer stands for. */
  function Bytes(b: Buf): (s: seq<Byte>)
    requires BufOk(b)
    ensures |s| == Size(b)
  {
    Data(b)[From(b)..To(b)]
  }

  /** n bytes of the buffer are done with. */
  function Advance(b: Buf, n: nat): (r: Buf)
    requires BufOk(b) && n <= Size(b)
    ensures BufOk(r) && Size(r) == Size(b) - n && r.ours == b.ours
  {
    if !InMemory(b) then b.(filePos := b.filePos + n)
    else b.(pos := b.pos + n, filePos := if b.inFile then b.filePos + n else b.filePos)
  }

  lemma AdvanceBytes(b: Buf, n: nat)
    requires BufOk(b) && n <= Size(b)
    ensures Bytes(b) == Bytes(b)[..n] + Bytes(Advance(b, n)) && Bytes(Advance(b, n)) == Bytes(b)[n..]
  {
    AdvanceFrom(b, n);
    var x, i, j := Data(b), From(b), To(b);
    SliceRest(x, i, j, n);
    assert Bytes(b) == x[i..j] && Bytes(Advance(b, n)) == x[i + n..j];
  }

  lemma AdvanceFrom(b: Buf, n: nat)
    requires BufOk(b) && n <= Size(b)
    ensures var r := Advance(b, n); Data(r) == Data(b) && From(r) == From(b) + n && To(r) == To(b)
  {
    var r := Advance(b, n);
    assert InMemory(r) == InMemory(b) && r.mem == b.mem && r.file == b.file;
  }

  lemma SliceRest(x: seq<Byte>, i: nat, j: nat, n: nat)
    requires i + n <= j <= |x|
    ensures x[i..j][n..] == x[i + n..j] && x[i..j] == x[i..j][..n] + x[i + n..j]
  {
  }

  // ----- what a filter gets to see -----

  /** A byte, or what a buffer says at its end; sync counts only without data. */
  datatype Token = Octet(byte: Byte) | Sign(flush: bool, lastBuf: bool, lastInChain: bool, sync: bool)

  function Octets(x: seq<Byte>): (r: seq<Token>)
    ensures |r| == |x|
  {
    if x == [] then [] else [Octet(x[0])] + Octets(x[1..])
  }

  function Signs(b: Buf): seq<Token> {
    if b.flush || b.lastBuf || b.lastInChain || (Special(b) && b.sync)
    then [Sign(b.flush, b.lastBuf, b.lastInChain, Special(b) && b.sync)] else []
  }

  /** What a buffer stands for; without bytes it stands for nothing unless it is special. */
  function Tokens(b: Buf): seq<Token> {
    if !BufOk(b) || (Size(b) == 0 && !Special(b)) then [] else Octets(Bytes(b)) + Signs(b)
  }

  /** A buffer that says something only if it has no data. */
  predicate Quiet(b: Buf) { Special(b) || Signs(b) == [] }

  ghost predicate QuietAt(m: Store, i: Id) { i in m ==> Quiet(m[i]) }

  /** No buffer with data says anything. */
  ghost predicate Mute(m: Store) { forall i {:trigger QuietAt(m, i)} :: QuietAt(m, i) }

  lemma MuteUpdated(m: Store, h: Id, b: Buf)
    requires Mute(m) && Quiet(b)
    ensures Mute(m[h := b])
  {
    var m' := m[h := b];
    forall i ensures QuietAt(m', i) { assert QuietAt(m, i); }
  }

  /** y is x without some of its signs. */
  ghost predicate Thins(x: seq<Token>, y: seq<Token>) {
    if x == [] then y == []
    else (y != [] && y[0] == x[0] && Thins(x[1..], y[1..])) || (x[0].Sign? && Thins(x[1..], y))
  }

  lemma {:induction false} ThinsSame(x: seq<Token>)
    ensures Thins(x, x)
  {
    if x != [] { ThinsSame(x[1..]); }
  }

  lemma {:induction false} ThinsJoin(a: seq<Token>, b: seq<Token>, c: seq<Token>, d: seq<Token>)
    requires Thins(a, b) && Thins(c, d)
    ensures Thins(a + c, b + d)
    decreases |a|
  {
    if a == [] {
      assert a + c == c && b + d == d;
    } else {
      assert (a + c)[1..] == a[1..] + c && (a + c)[0] == a[0];
      if b != [] && b[0] == a[0] && Thins(a[1..], b[1..]) {
        ThinsJoin(a[1..], b[1..], c, d);
        assert (b + d)[1..] == b[1..] + d && (b + d)[0] == b[0];
      } else {
        ThinsJoin(a[1..], b, c, d);
      }
    }
  }

  lemma {:induction false} ThinsTrans(x: seq<Token>, y: seq<Token>, z: seq<Token>)
    requires Thins(x, y) && Thins(y, z)
    ensures Thins(x, z)
    decreases |x|
  {
    if x != [] {
      if y != [] && y[0] == x[0] && Thins(x[1..], y[1..]) {
        if z != [] && z[0] == y[0] && Thins(y[1..], z[1..]) {
          ThinsTrans(x[1..], y[1..], z[1..]);
        } else {
          ThinsTrans(x[1..], y[1..], z);
        }
      } else {
        ThinsTrans(x[1..], y, z);
      }
    }
  }

  lemma {:induction false} ThinsExact(x: seq<Token>, y: seq<Token>)
    requires Thins(x, y)
    ensures |y| <= |x| && (|x| == |y| ==> x == y)
  {
    if x != [] {
      if y != [] && y[0] == x[0] && Thins(x[1..], y[1..]) {
        ThinsExact(x[1..], y[1..]);
        assert x == [x[0]] + x[1..] && y == [y[0]] + y[1..];
      } else {
        ThinsExact(x[1..], y);
      }
    }
  }

  /** How many signs are in sent besides those of asked, if that is all the difference. */
  ghost function Surplus(sent: seq<Token>, asked: seq<Token>): int {
    if Thins(sent, asked) then |sent| - |asked| else -1
  }

  /** All of asked is in sent, in order, and besides that nothing but strays signs. */
  ghost predicate Accounts(sent: seq<Token>, asked: seq<Token>, strays: nat) { Surplus(sent, asked) == strays }

  /** There is no difference exactly if no sign strayed. */
  lemma NoStrays(sent: seq<Token>, asked: seq<Token>, strays: nat)
    requires Accounts(sent, asked, strays)
    ensures strays == 0 <==> sent == asked
  {
    ThinsExact(sent, asked);
  }

  lemma AccountsSame(x: seq<Token>)
    ensures Accounts(x, x, 0)
  {
    ThinsSame(x);
  }

  lemma AccountsTrans(x: seq<Token>, y: seq<Token>, z: seq<Token>, j: nat, k: nat)
    requires Accounts(x, y, j) && Accounts(y, z, k)
    ensures Accounts(x, z, j + k)
  {
    ThinsTrans(x, y, z);
  }

  lemma AccountsJoin(a: seq<Token>, b: seq<Token>, c: seq<Token>, d: seq<Token>, j: nat, k: nat)
    requires Accounts(a, b, j) && Accounts(c, d, k)
    ensures Accounts(a + c, b + d, j + k)
  {
    ThinsJoin(a, b, c, d);
  }

  /** The bytes alone. */
  ghost function Payload(x: seq<Token>): seq<Byte> {
    if x == [] then [] else (if x[0].Octet? then [x[0].byte] else []) + Payload(x[1..])
  }

  /** No byte is lost, repeated or out of order. */
  lemma {:induction false} SamePayload(x: seq<Token>, y: seq<Token>)
    requires Thins(x, y)
    ensures Payload(x) == Payload(y)
  {
    if x != [] {
      if y != [] && y[0] == x[0] && Thins(x[1..], y[1..]) { SamePayload(x[1..], y[1..]); }
        else { SamePayload(x[1..], y); }
    }
  }

  lemma {:induction false} PayloadOf(x: seq<Byte>, y: seq<Token>)
    requires forall i :: 0 <= i < |y| ==> y[i].Sign?
    ensures Payload(Octets(x) + y) == x
    decreases |x| + |y|
  {
    var z := Octets(x) + y;
    if x != [] {
      assert z == [Octet(x[0])] + (Octets(x[1..]) + y);
      assert z[1..] == Octets(x[1..]) + y;
      PayloadOf(x[1..], y);
    } else if y != [] {
      assert z == y && z[1..] == Octets(x) + y[1..];
      PayloadOf(x, y[1..]);
    }
  }

  /** The bytes among a buffer's tokens are its bytes. */
  lemma TokensPayload(b: Buf)
    requires BufOk(b)
    ensures Payload(Tokens(b)) == Bytes(b)
  {
    if Size(b) == 0 && !Special(b) { assert Bytes(b) == []; } else { PayloadOf(Bytes(b), Signs(b)); }
  }

  // ----- chains -----

  ghost predicate Known(m: Store, ids: seq<Id>) { forall i :: i in ids ==> i in m && BufOk(m[i]) }

  ghost function At(m: Store, i: Id): seq<Token> { if i in m then Tokens(m[i]) else [] }

  /** What a chain stands for. */
  ghost function Text(m: Store, ids: seq<Id>): seq<Token> {
    if ids == [] then [] else At(m, ids[0]) + Text(m, ids[1..])
  }

  /** The bytes of a chain. */
  ghost function ChainBytes(m: Store, ids: seq<Id>): seq<Byte>
    requires Known(m, ids)
  {
    if ids == [] then [] else Bytes(m[ids[0]]) + ChainBytes(m, ids[1..])
  }

  lemma {:induction false} PayloadJoin(x: seq<Token>, y: seq<Token>)
    ensures Payload(x + y) == Payload(x) + Payload(y)
    decreases |x|
  {
    if x == [] {
      assert x + y == y;
    } else {
      assert (x + y)[1..] == x[1..] + y;
      PayloadJoin(x[1..], y);
    }
  }

  /** The bytes in what a chain stands for are the bytes of its buffers. */
  lemma {:induction false} TextBytes(m: Store, ids: seq<Id>)
    requires Known(m, ids)
    ensures Payload(Text(m, ids)) == ChainBytes(m, ids)
    decreases |ids|
  {
    if ids != [] {
      TextBytes(m, ids[1..]);
      TokensPayload(m[ids[0]]);
      PayloadJoin(At(m, ids[0]), Text(m, ids[1..]));
    }
  }

  lemma Assoc(a: seq<Token>, b: seq<Token>, c: seq<Token>)
    ensures a + b + c == a + (b + c)
  {
  }

  lemma {:induction false} TextJoin(m: Store, a: seq<Id>, b: seq<Id>)
    ensures Text(m, a + b) == Text(m, a) + Text(m, b)
    decreases |a|
  {
    if a == [] {
      assert a + b == b && [] + Text(m, b) == Text(m, b);
    } else {
      var h := At(m, a[0]);
      assert (a + b)[1..] == a[1..] + b;
      TextJoin(m, a[1..], b);
      Assoc(h, Text(m, a[1..]), Text(m, b));
    }
  }

  lemma {:induction false} TextSame(m: Store, m': Store, ids: seq<Id>)
    requires forall i :: i in ids ==> At(m', i) == At(m, i)
    ensures Text(m', ids) == Text(m, ids)
  {
    if ids != [] { TextSame(m, m', ids[1..]); }
  }

  /** How many of the buffers carry the context's tag. */
  function Ours(m: Store, ids: seq<Id>): nat {
    if ids == [] then 0 else (if ids[0] in m && m[ids[0]].ours then 1 else 0) + Ours(m, ids[1..])
  }

  lemma {:induction false} OursJoin(m: Store, a: seq<Id>, b: seq<Id>)
    ensures Ours(m, a + b) == Ours(m, a) + Ours(m, b)
    decreases |a|
  {
    if a == [] {
      assert a + b == b;
    } else {
      assert (a + b)[1..] == a[1..] + b;
      OursJoin(m, a[1..], b);
    }
  }

  lemma {:induction false} OursSame(m: Store, m': Store, ids: seq<Id>)
    requires forall i :: i in ids && i in m ==> i in m' && m'[i].ours == m[i].ours
    requires forall i :: i in ids ==> i in m
    ensures Ours(m', ids) == Ours(m, ids)
  {
    if ids != [] { OursSame(m, m', ids[1..]); }
  }

  lemma {:induction false} OursNone(m: Store, ids: seq<Id>)
    requires forall i :: i in ids && i in m ==> !m[i].ours
    ensures Ours(m, ids) == 0
  {
    if ids != [] { OursNone(m, ids[1..]); }
  }

  // ----- the state of a context -----

  /**
   The chains of ngx_output_chain_ctx_t and the local chain out; cur is ctx->buf, as a chain
   of at most one.  owed holds, for each buffer handed to the filter and not yet used up, the
   bytes that the filter has still to take from it.
   */
  datatype State = State(bufs: Store, input: seq<Id>, out: seq<Id>, busy: seq<Id>, free: seq<Id>, cur: seq<Id>,
                         made: int, owed: map<Id, seq<Byte>>)

  function Everything(s: State): multiset<Id> {
    multiset(s.input) + multiset(s.out) + multiset(s.busy) + multiset(s.free) + multiset(s.cur)
  }

  ghost predicate Once(s: State, i: Id) { Everything(s)[i] <= 1 }

  /** A buffer in a chain exists; in free and cur it is empty; the filter has still to take what busy buffers hold. */
  ghost predicate Placed(s: State, i: Id) {
    && (i in Everything(s) ==> i != 0 && i in s.bufs && BufOk(s.bufs[i]))
    && (i in s.input && i in s.bufs ==> !s.bufs[i].ours)
    && (i in s.free && i in s.bufs ==> Blank(s.bufs[i]) && s.bufs[i].ours)
    && (i in s.cur && i in s.bufs ==> Blank(s.bufs[i]))
    && (i in s.busy && i in s.bufs ==> i in s.owed || Size(s.bufs[i]) == 0)
  }

  /** An empty temporary buffer with room. */
  predicate Blank(b: Buf) { b.temporary && !b.memory && !b.mmap && b.pos == 0 && b.last == 0 && |b.mem| > 0 }

  /** What the filter has still to take is untouched and in no buffer that could be written. */
  ghost predicate Intact(s: State, i: Id) {
    i in s.owed ==>
      && i in s.bufs && BufOk(s.bufs[i]) && Bytes(s.bufs[i]) == s.owed[i] && s.owed[i] != []
      && i !in s.input && i !in s.free && i !in s.cur
  }

  ghost predicate Inv(s: State) {
    && (forall i {:trigger Once(s, i)} :: Once(s, i))
    && (forall i {:trigger Placed(s, i)} :: Placed(s, i))
    && (forall i {:trigger Intact(s, i)} :: Intact(s, i))
    && |s.cur| <= 1 && s.made == Ours(s.bufs, s.out) + Ours(s.bufs, s.busy) + Ours(s.bufs, s.free) + Ours(s.bufs, s.cur)
  }

  lemma AllKnown(s: State)
    requires Inv(s)
    ensures Known(s.bufs, s.input) && Known(s.bufs, s.out) && Known(s.bufs, s.busy) && Known(s.bufs, s.free) &&
            Known(s.bufs, s.cur)
  {
    forall i | i in s.input || i in s.out || i in s.busy || i in s.free || i in s.cur
      ensures i in s.bufs &&
        BufOk(s.bufs[i])
    {
      assert Placed(s, i) && i in Everything(s);
    }
  }

  /** What is out or still to come. */
  ghost function Ahead(s: State): seq<Token>
  {
    Text(s.bufs, s.out) + Text(s.bufs, s.input)
  }

  // ----- moving buffers between chains -----

  /** The chains hold the same buffers as before, or fewer. */
  lemma Moved(s: State, s': State)
    requires Inv(s) && s'.bufs == s.bufs && s'.owed == s.owed && Everything(s') <= Everything(s)
    requires forall i :: i in s'.input ==> i in s.input
    requires forall i :: i in s'.free ==> i in s.free
    requires forall i :: i in s'.cur ==> i in s.cur || i in s.free
    requires forall i :: i in s'.busy ==> i in s.busy || i in s.owed || (i in s.bufs && Size(s.bufs[i]) == 0)
    requires |s'.cur| <= 1
    requires s'.made == Ours(s.bufs, s'.out) + Ours(s.bufs, s'.busy) + Ours(s.bufs, s'.free) + Ours(s.bufs, s'.cur)
    ensures Inv(s')
  {
    forall i ensures Once(s', i) { assert Once(s, i); }
    forall i ensures Placed(s', i) { assert Placed(s, i); }
    forall i ensures Intact(s', i) { assert Intact(s, i); }
  }

  lemma HeadOff(x: seq<Id>)
    requires x != []
    ensures multiset(x) == multiset{x[0]} + multiset(x[1..])
  {
    assert x == [x[0]] + x[1..];
  }

  lemma InputHead(s: State)
    requires Inv(s) && s.input != []
    ensures s.input[0] in s.bufs && BufOk(s.bufs[s.input[0]]) && !s.bufs[s.input[0]].ours && s.input[0] !in s.owed
    ensures s.input[0] !in s.out && s.input[0] !in s.busy && s.input[0] !in s.free && s.input[0] !in s.cur &&
            s.input[0] !in s.input[1..]
  {
    var h := s.input[0];
    HeadOff(s.input);
    assert h in s.input && h in Everything(s);
    assert Placed(s, h) && Once(s, h) && Intact(s, h);
  }

  /** A buffer without bytes leaves the input: line 116 or 182. */
  function Drop(s: State): State
    requires s.input != []
  {
    s.(input := s.input[1..])
  }

  lemma Dropped(s: State)
    requires Inv(s) && s.input != [] && s.input[0] in s.bufs && Tokens(s.bufs[s.input[0]]) == []
    ensures Inv(Drop(s)) && Kept(s, Drop(s), 0) && Text(s.bufs, Drop(s).input) == Text(s.bufs, s.input)
  {
    HeadOff(s.input);
    Moved(s, Drop(s));
    AllKnown(s);
    AllKnown(Drop(s));
    AccountsSame(Ahead(s));
    assert [] + Text(s.bufs, s.input[1..]) == Text(s.bufs, s.input[1..]);
  }

  /** Nothing ahead is lost, repeated or out of order, and k signs strayed in, none if all data is mute. */
  ghost predicate Kept(s: State, s': State, k: nat) {
    && Accounts(Ahead(s'), Ahead(s), k) && s'.busy == s.busy && s'.owed == s.owed
    && (forall i :: i in s.out && i in s.bufs ==> i in s'.bufs && s'.bufs[i] == s.bufs[i])
    && (Mute(s.bufs) ==> Mute(s'.bufs) && k == 0)
  }

  lemma KeptSame(s: State)
    ensures Kept(s, s, 0)
  {
    AccountsSame(Ahead(s));
  }

  lemma KeptTrans(a: State, b: State, c: State, j: nat, k: nat)
    requires Kept(a, b, j) && Kept(b, c, k) && forall i :: i in a.out ==> i in b.out
    ensures Kept(a, c, j + k)
  {
    AccountsTrans(Ahead(c), Ahead(b), Ahead(a), k, j);
  }

  /** A buffer that needs no copy is moved to the output: lines 121-130. */
  function Pass(s: State): State
    requires s.input != []
  {
    s.(input := s.input[1..], out := s.out + [s.input[0]])
  }

  lemma Passed(s: State)
    requires Inv(s) && s.input != []
    ensures Inv(Pass(s)) && Kept(s, Pass(s), 0)
  {
    PassedInv(s);
    AllKnown(s);
    AllKnown(Pass(s));
    TextShift(s.bufs, s.out, s.input);
    AccountsSame(Ahead(s));
  }

  lemma PassedInv(s: State)
    requires Inv(s) && s.input != []
    ensures Inv(Pass(s))
  {
    var h := s.input[0];
    HeadOff(s.input);
    InputHead(s);
    OursJoin(s.bufs, s.out, [h]);
    assert Ours(s.bufs, [h]) == 0 by { assert [h][1..] == []; }
    assert multiset(Pass(s).out) == multiset(s.out) + multiset{h};
    Moved(s, Pass(s));
  }

  /** The first of y behind the last of x. */
  lemma TextShift(m: Store, x: seq<Id>, y: seq<Id>)
    requires y != []
    ensures Text(m, x + [y[0]]) + Text(m, y[1..]) == Text(m, x) + Text(m, y)
  {
    TextJoin(m, x, [y[0]]);
    TextOne(m, y[0]);
    Assoc(Text(m, x), At(m, y[0]), Text(m, y[1..]));
  }

  lemma TextOne(m: Store, h: Id)
    ensures Text(m, [h]) == At(m, h)
  {
    assert [h][1..] == [] && At(m, h) + [] == At(m, h);
  }

  /** The first input buffer changes in ways that do not touch what it stands for: line 248. */
  lemma Marked(s: State, b: Buf)
    requires Inv(s) && s.input != [] && s.input[0] in s.bufs && BufOk(s.bufs[s.input[0]]) && BufOk(b)
    requires !b.ours && Tokens(b) == Tokens(s.bufs[s.input[0]]) && (Quiet(s.bufs[s.input[0]]) ==> Quiet(b))
    ensures var s' := s.(bufs := s.bufs[s.input[0] := b]);
            Inv(s') && Kept(s, s', 0) && Text(s'.bufs, s.input) == Text(s.bufs, s.input)
  {
    var h := s.input[0];
    var s' := s.(bufs := s.bufs[h := b]);
    InputHead(s);
    Rewritten(s, s', h);
    AllKnown(s);
    TextSame(s.bufs, s'.bufs, s.input);
    TextSame(s.bufs, s'.bufs, s.out);
    AccountsSame(Ahead(s));
    if Mute(s.bufs) { assert QuietAt(s.bufs, h); MuteUpdated(s.bufs, h, b); }
  }

  /** A buffer of the input is replaced by another of the same kind. */
  lemma Rewritten(s: State, s': State, h: Id)
    requires Inv(s) && h in s.input && h in s.bufs && h in s'.bufs && s' == s.(bufs := s.bufs[h := s'.bufs[h]])
    requires BufOk(s'.bufs[h]) && !s'.bufs[h].ours && !s.bufs[h].ours
    ensures Inv(s')
  {
    AllKnown(s);
    forall i ensures Once(s', i) { assert Once(s, i); }
    forall i ensures Placed(s', i) {
      assert Placed(s, i) && Once(s, i);
      if i == h { assert h in s.input && multiset(s.input)[h] >= 1; }
    }
    forall i ensures Intact(s', i) { assert Intact(s, i); }
    OursSame(s.bufs, s'.bufs, s.out);
    OursSame(s.bufs, s'.bufs, s.busy);
    OursSame(s.bufs, s'.bufs, s.free);
    OursSame(s.bufs, s'.bufs, s.cur);
  }

  /** A free buffer is taken: lines 149-151. */
  lemma FreeTaken(s: State)
    requires Inv(s) && s.free != [] && s.cur == []
    ensures var s' := s.(free := s.free[1..], cur := [s.free[0]]); Inv(s') && Kept(s, s', 0)
  {
    var s' := s.(free := s.free[1..], cur := [s.free[0]]);
    HeadOff(s.free);
    OursOne(s.bufs, s.free);
    Moved(s, s');
    AllKnown(s);
    AccountsSame(Ahead(s));
  }

  lemma OursOne(m: Store, x: seq<Id>)
    requires x != []
    ensures Ours(m, x) == Ours(m, [x[0]]) + Ours(m, x[1..])
  {
    assert [x[0]][1..] == [];
  }

  /** A new buffer becomes the current one; it counts if it is the context's. */
  lemma CurMade(s: State, id: Id, b: Buf)
    requires Inv(s) && s.cur == [] && id != 0 && id !in s.bufs && BufOk(b) && Blank(b) && Quiet(b)
    ensures var s' := s.(bufs := s.bufs[id := b], cur := [id], made := s.made + if b.ours then 1 else 0);
      Inv(s') && Kept(s, s', 0) && Text(s'.bufs, s.input) == Text(s.bufs, s.input)
  {
    var s' := s.(bufs := s.bufs[id := b], cur := [id], made := s.made + if b.ours then 1 else 0);
    AllKnown(s);
    assert Placed(s, id) && Intact(s, id);
    forall i ensures Once(s', i) && Placed(s', i) && Intact(s', i) {
      assert Once(s, i) && Placed(s, i) && Intact(s, i);
      MadeAt(s, s', id, b, i);
    }
    OursAfter(s, s');
    assert [id][1..] == [];
    TextSame(s.bufs, s'.bufs, s.input);
    TextSame(s.bufs, s'.bufs, s.out);
    AccountsSame(Ahead(s));
    if Mute(s.bufs) { MuteUpdated(s.bufs, id, b); }
  }

  lemma MadeAt(s: State, s': State, id: Id, b: Buf, i: Id)
    requires s.cur == [] && id != 0 && id !in s.bufs && BufOk(b) && Blank(b) && Placed(s, id) && Intact(s, id)
    requires s' == s.(bufs := s.bufs[id := b], cur := [id], made := s'.made)
    requires Once(s, i) && Placed(s, i) && Intact(s, i)
    ensures Once(s', i) && Placed(s', i) && Intact(s', i)
  {
  }

  /** The counts of the chains out, busy and free do not change if no buffer in them changes its tag. */
  lemma OursAfter(s: State, s': State)
    requires Known(s.bufs, s.out) && Known(s.bufs, s.busy) && Known(s.bufs, s.free)
    requires s'.out == s.out && s'.busy == s.busy && s'.free == s.free
    requires forall i {:trigger i in s'.bufs} :: i in s.bufs && (i in s.out || i in s.busy || i in s.free) ==>
               i in s'.bufs && s'.bufs[i].ours == s.bufs[i].ours
    ensures Ours(s'.bufs, s'.out) == Ours(s.bufs, s.out) && Ours(s'.bufs, s'.busy) == Ours(s.bufs, s.busy)
    ensures Ours(s'.bufs, s'.free) == Ours(s.bufs, s.free)
  {
    OursSame(s.bufs, s'.bufs, s.out);
    OursSame(s.bufs, s'.bufs, s.busy);
    OursSame(s.bufs, s'.bufs, s.free);
  }

  // ----- copying -----

  /** A part of the first input buffer went to the current one, which joins the output: lines 165-194. */
  function Copy(s: State, b: Buf, d: Buf): State
    requires s.input != [] && |s.cur| == 1
  {
    s.(bufs := s.bufs[s.input[0] := b][s.cur[0] := d], out := s.out + s.cur, cur := [])
  }

  /** b and d are the two buffers after a part of b moved to d, with k stray signs. */
  ghost predicate Transfer(s: State, b: Buf, d: Buf, k: nat) {
    && s.input != [] && |s.cur| == 1 && s.input[0] in s.bufs && s.cur[0] in s.bufs && BufOk(s.bufs[s.input[0]]) &&
       BufOk(b) && BufOk(d) && !b.ours && d.ours == s.bufs[s.cur[0]].ours
    && Accounts(Tokens(d) + Tokens(b), Tokens(s.bufs[s.input[0]]), k) && |Tokens(b)| < |Tokens(s.bufs[s.input[0]])|
    && (Quiet(s.bufs[s.input[0]]) && Quiet(s.bufs[s.cur[0]]) ==> Quiet(b) && Quiet(d) && k == 0)
  }

  lemma CurHead(s: State)
    requires Inv(s) && |s.cur| == 1
    ensures var d := s.cur[0]; d in s.bufs && BufOk(s.bufs[d]) && Blank(s.bufs[d]) && d !in s.owed
    ensures s.cur[0] !in s.input && s.cur[0] !in s.out && s.cur[0] !in s.busy && s.cur[0] !in s.free
  {
    var d := s.cur[0];
    assert d in s.cur && d in Everything(s);
    assert Placed(s, d) && Once(s, d) && Intact(s, d);
  }

  lemma CopiedInv(s: State, b: Buf, d: Buf, k: nat)
    requires Inv(s) && Transfer(s, b, d, k)
    ensures Inv(Copy(s, b, d))
  {
    var s' := Copy(s, b, d);
    InputHead(s);
    CurHead(s);
    assert s.cur == [s.cur[0]];
    assert multiset(s'.out) == multiset(s.out) + multiset(s.cur);
    assert Everything(s') == Everything(s);
    forall i ensures Once(s', i) { assert Once(s, i); }
    forall i ensures Placed(s', i) && Intact(s', i) {
      assert Placed(s, i) && Intact(s, i);
      CopiedAt(s, b, d, i);
    }
    CopiedOurs(s, b, d, k);
  }

  lemma CopiedAt(s: State, b: Buf, d: Buf, i: Id)
    requires s.input != [] && |s.cur| == 1 && BufOk(b) && BufOk(d) && !b.ours
    requires s.input[0] !in s.owed && s.input[0] !in s.busy && s.input[0] !in s.free && s.input[0] !in s.cur
    requires s.cur[0] !in s.owed && s.cur[0] !in s.busy && s.cur[0] !in s.free && s.cur[0] !in s.input
    requires Everything(Copy(s, b, d)) == Everything(s) && Placed(s, i) && Intact(s, i)
    ensures Placed(Copy(s, b, d), i) && Intact(Copy(s, b, d), i)
  {
  }

  lemma CopiedOurs(s: State, b: Buf, d: Buf, k: nat)
    requires Inv(s) && Transfer(s, b, d, k)
    ensures var s' := Copy(s, b, d);
            s'.made == Ours(s'.bufs, s'.out) + Ours(s'.bufs, s'.busy) + Ours(s'.bufs, s'.free) + Ours(s'.bufs, s'.cur)
  {
    var s' := Copy(s, b, d);
    InputHead(s);
    AllKnown(s);
    OursSame(s.bufs, s'.bufs, s.out);
    OursSame(s.bufs, s'.bufs, s.busy);
    OursSame(s.bufs, s'.bufs, s.free);
    OursSame(s.bufs, s'.bufs, s.cur);
    OursJoin(s'.bufs, s.out, s.cur);
  }

  lemma Copied(s: State, b: Buf, d: Buf, k: nat)
    requires Inv(s) && Transfer(s, b, d, k)
    ensures Inv(Copy(s, b, d)) && Kept(s, Copy(s, b, d), k)
    ensures var s' := Copy(s, b, d);
      |Text(s'.bufs, s.input)| < |Text(s.bufs, s.input)|
  {
    var s' := Copy(s, b, d);
    CopiedInv(s, b, d, k);
    AllKnown(s);
    AllKnown(s');
    InputHead(s);
    CurHead(s);
    CopiedText(s, b, d, k);
    if Mute(s.bufs) {
      var h, c := s.input[0], s.cur[0];
      assert QuietAt(s.bufs, h) && QuietAt(s.bufs, c);
      MuteUpdated(s.bufs, h, b);
      MuteUpdated(s.bufs[h := b], c, d);
    }
  }

  lemma CopiedText(s: State, b: Buf, d: Buf, k: nat)
    requires Inv(s) && Transfer(s, b, d, k)
    ensures Accounts(Ahead(Copy(s, b, d)), Ahead(s), k)
    ensures |Text(Copy(s, b, d).bufs, s.input)| < |Text(s.bufs, s.input)|
  {
    var h, c, m' := s.input[0], s.cur[0], Copy(s, b, d).bufs;
    InputHead(s);
    CurHead(s);
    TextSame(s.bufs, m', s.out);
    TextSame(s.bufs, m', s.input[1..]);
    assert s.cur == [c];
    TextJoin(m', s.out, [c]);
    TextOne(m', c);
    Between(Text(s.bufs, s.out), Tokens(d), Tokens(b), Tokens(s.bufs[h]), Text(s.bufs, s.input[1..]), k);
  }

  lemma Between(x: seq<Token>, d: seq<Token>, b: seq<Token>, all: seq<Token>, y: seq<Token>, k: nat)
    requires Accounts(d + b, all, k)
    ensures Accounts(x + d + (b + y), x + (all + y), k)
  {
    assert x + d + (b + y) == x + ((d + b) + y);
    AccountsSame(x);
    AccountsSame(y);
    AccountsJoin(d + b, all, y, y, k, 0);
    AccountsJoin(x, x, (d + b) + y, all + y, 0, k);
  }

  // ----- the filter -----

  /** The output is handed to the filter, which now owes itself its bytes: line 206. */
  function HandOver(s: State): State {
    s.(owed := map i | i in s.owed.Keys + (set j | j in s.out && j in s.bufs && BufOk(s.bufs[j]) &&
          Size(s.bufs[j]) > 0) ::
                 if i in s.owed then s.owed[i] else Bytes(s.bufs[i]))
  }

  /** The filter has still to take what the output holds. */
  ghost predicate OutOwed(s: State) {
    forall i :: i in s.out && i in s.bufs ==> i in s.owed || Size(s.bufs[i]) == 0
  }

  lemma HandedOver(s: State)
    requires Inv(s)
    ensures Inv(HandOver(s)) && OutOwed(HandOver(s))
  {
    var s' := HandOver(s);
    forall i ensures Once(s', i) { assert Once(s, i); }
    forall i ensures Placed(s', i) { assert Placed(s, i); }
    forall i ensures Intact(s', i) {
      assert Intact(s, i) && Placed(s, i) && Once(s, i);
      if i in s'.owed && i !in s.owed { assert i in s.out && multiset(s.out)[i] >= 1; }
    }
    AllKnown(s);
  }

  /** How much of buffer b = buffer i the filter takes. */
  function Bite(i: Id, b: Buf, eat: (Id, nat) -> nat): (n: nat)
    ensures BufOk(b) ==> n <= Size(b) && (eat(i, Size(b)) >= Size(b) ==> n == Size(b))
  {
    if !BufOk(b) then 0 else if eat(i, Size(b)) <= Size(b) then eat(i, Size(b)) else Size(b)
  }

  /** The filter takes eat(i, n) of the n bytes of each buffer i it owes, or what there is. */
  function Consume(s: State, eat: (Id, nat) -> nat): State {
    s.(bufs := map i | i in s.bufs :: if i in s.owed &&
        BufOk(s.bufs[i]) then Advance(s.bufs[i], Bite(i, s.bufs[i], eat)) else s.bufs[i],
       owed := map i | i in s.owed && i in s.bufs &&
         Bite(i, s.bufs[i], eat) < |s.owed[i]| :: s.owed[i][Bite(i, s.bufs[i], eat)..])
  }

  lemma Consumed(s: State, eat: (Id, nat) -> nat)
    requires Inv(s)
    ensures var s' := Consume(s, eat);
      Inv(s') && Text(s'.bufs, s.input) == Text(s.bufs, s.input)
  {
    var s' := Consume(s, eat);
    AllKnown(s);
    forall i ensures Once(s', i) && Placed(s', i) && Intact(s', i) {
      assert Once(s, i) && Placed(s, i) && Intact(s, i);
      ConsumedAt(s, s', eat, i);
    }
    OursAfter(s, s');
    OursSame(s.bufs, s'.bufs, s.cur);
    forall i | i in s.input ensures s'.bufs[i] == s.bufs[i] { assert Intact(s, i); }
    TextSame(s.bufs, s'.bufs, s.input);
  }

  lemma StillOwed(s: State, eat: (Id, nat) -> nat)
    requires Inv(s) && OutOwed(s)
    ensures OutOwed(Consume(s, eat))
  {
    var s' := Consume(s, eat);
    forall i | i in s'.out && i in s'.bufs ensures i in s'.owed || Size(s'.bufs[i]) == 0 {
      assert Intact(s, i);
    }
  }

  /** A filter that takes all it can see owes itself nothing. */
  lemma AllEaten(s: State, eat: (Id, nat) -> nat)
    requires Inv(s) && forall i, n :: eat(i, n) >= n
    ensures Consume(s, eat).owed == map[]
  {
    forall i | i in s.owed ensures i in s.bufs && Bite(i, s.bufs[i], eat) == |s.owed[i]| { assert Intact(s, i); }
  }

  lemma ConsumedAt(s: State, s': State, eat: (Id, nat) -> nat, i: Id)
    requires s' == Consume(s, eat) && Once(s, i) && Placed(s, i) && Intact(s, i)
    ensures Once(s', i) && Placed(s', i) && Intact(s', i)
  {
    if i in s'.owed { AdvanceBytes(s.bufs[i], Bite(i, s.bufs[i], eat)); }
  }

  /** The output is handed over and the filter takes what it wants. */
  function Filter(s: State, eat: (Id, nat) -> nat): State { Consume(HandOver(s), eat) }

  /** What a call of the filter leaves: it owes itself what is left of its buffers, and nothing else changed. */
  ghost predicate Fed(s: State, s': State, all: bool) {
    && Inv(s') && s' == s.(bufs := s'.bufs, owed := s'.owed) && OutOwed(s') && s'.bufs.Keys == s.bufs.Keys
    && Text(s'.bufs, s.input) == Text(s.bufs, s.input)
    && (forall i :: i in s.bufs && i in s'.bufs ==> s'.bufs[i].ours == s.bufs[i].ours)
    && (all ==> s'.owed == map[]) && (Mute(s.bufs) ==> Mute(s'.bufs))
  }

  lemma Filtered(s: State, eat: (Id, nat) -> nat, all: bool)
    requires Inv(s) && (all ==> forall i, n :: eat(i, n) >= n)
    ensures Fed(s, Filter(s, eat), all)
  {
    HandedOver(s);
    Consumed(HandOver(s), eat);
    StillOwed(HandOver(s), eat);
    if all { AllEaten(HandOver(s), eat); }
    if Mute(s.bufs) {
      forall i ensures QuietAt(Filter(s, eat).bufs, i) { assert QuietAt(s.bufs, i); }
    }
  }

  // ----- ngx_chain_update_chains -----

  /** The output joins the busy chain: lines 189-198 of src/core/ngx_buf.c. */
  lemma Joined(s: State)
    requires Inv(s) && OutOwed(s)
    ensures Inv(s.(busy := s.busy + s.out, out := []))
  {
    var s' := s.(busy := s.busy + s.out, out := []);
    OursJoin(s.bufs, s.busy, s.out);
    assert multiset(s'.busy) == multiset(s.busy) + multiset(s.out);
    AllKnown(s);
    Moved(s, s');
  }

  /** The first busy buffer is used up: lines 207-218. */
  function Recycle(s: State): State
    requires s.busy != [] && s.busy[0] in s.bufs
  {
    var h := s.busy[0];
    if !s.bufs[h].ours then s.(busy := s.busy[1..])
    else s.(busy := s.busy[1..], free := [h] + s.free, bufs := s.bufs[h := s.bufs[h].(pos := 0, last := 0)])
  }

  lemma BusyHead(s: State)
    requires Inv(s) && s.busy != []
    ensures s.busy[0] in s.bufs && BufOk(s.bufs[s.busy[0]])
    ensures s.busy[0] !in s.input && s.busy[0] !in s.out && s.busy[0] !in s.free && s.busy[0] !in s.cur &&
            s.busy[0] !in s.busy[1..]
    ensures Size(s.bufs[s.busy[0]]) == 0 ==> s.busy[0] !in s.owed
  {
    var h := s.busy[0];
    HeadOff(s.busy);
    assert h in s.busy && h in Everything(s);
    assert Placed(s, h) && Once(s, h) && Intact(s, h);
  }

  lemma Recycled(s: State)
    requires Inv(s) && s.busy != [] && s.busy[0] in s.bufs && Size(s.bufs[s.busy[0]]) == 0
    ensures var s' := Recycle(s); Inv(s') && s'.input == s.input && s'.owed == s.owed
    ensures var s' := Recycle(s);
            Text(s'.bufs, s.input) == Text(s.bufs, s.input)
  {
    var h, s' := s.busy[0], Recycle(s);
    BusyHead(s);
    AllKnown(s);
    HeadOff(s.busy);
    OursOne(s.bufs, s.busy);
    if !s.bufs[h].ours {
      assert Ours(s.bufs, [h]) == 0 by { assert [h][1..] == []; }
      Moved(s, s');
    } else {
      RecycledOurs(s);
      RecycledInv(s);
      TextSame(s.bufs, s'.bufs, s.input);
    }
  }

  lemma RecycledOurs(s: State)
    requires Inv(s) && s.busy != [] && s.busy[0] in s.bufs && s.bufs[s.busy[0]].ours
    ensures var s' := Recycle(s);
            s'.made == Ours(s'.bufs, s'.out) + Ours(s'.bufs, s'.busy) + Ours(s'.bufs, s'.free) + Ours(s'.bufs, s'.cur)
  {
    var h, s' := s.busy[0], Recycle(s);
    AllKnown(s);
    OursSame(s.bufs, s'.bufs, s.out);
    OursSame(s.bufs, s'.bufs, s.busy);
    OursSame(s.bufs, s'.bufs, s.free);
    OursSame(s.bufs, s'.bufs, s.cur);
    OursOne(s'.bufs, s.busy);
    OursJoin(s'.bufs, [h], s.free);
  }

  lemma RecycledInv(s: State)
    requires Inv(s) && s.busy != [] && s.busy[0] in s.bufs && s.bufs[s.busy[0]].ours && Size(s.bufs[s.busy[0]]) == 0
    ensures Inv(Recycle(s))
  {
    var h, s' := s.busy[0], Recycle(s);
    BusyHead(s);
    HeadOff(s.busy);
    assert multiset(s'.free) == multiset{h} + multiset(s.free);
    assert Everything(s') == Everything(s);
    forall i ensures Once(s', i) { assert Once(s, i); }
    forall i ensures Placed(s', i) && Intact(s', i) {
      assert Placed(s, i) && Intact(s, i);
      RecycledAt(s, s', h, i);
    }
    RecycledOurs(s);
  }

  lemma RecycledAt(s: State, s': State, h: Id, i: Id)
    requires s.busy != [] && h == s.busy[0] && h in s.bufs && BufOk(s.bufs[h]) && s.bufs[h].ours
    requires Size(s.bufs[h]) == 0 && h !in s.input && h !in s.cur && h !in s.owed
    requires s' == Recycle(s) && Everything(s') == Everything(s) && Placed(s, i) && Intact(s, i)
    ensures Placed(s', i) && Intact(s', i)
  {
  }

  /** The context's own buffers among the first n, the last one first. */
  function OursBack(m: Store, ids: seq<Id>, n: nat): seq<Id>
    requires n <= |ids|
  {
    if n == 0 then []
    else if ids[n - 1] in m && m[ids[n - 1]].ours then [ids[n - 1]] + OursBack(m, ids, n - 1)
    else OursBack(m, ids, n - 1)
  }

  lemma {:induction false} OursBackIs(m: Store, ids: seq<Id>, n: nat, i: Id)
    requires n <= |ids|
    ensures i in OursBack(m, ids, n) <==> i in ids[..n] && i in m && m[i].ours
    decreases n
  {
    if n > 0 {
      OursBackIs(m, ids, n - 1, i);
      assert ids[..n] == ids[..n - 1] + [ids[n - 1]];
    }
  }

  /** The first n busy buffers, all used up, are taken back; the context's own are empty and free again. */
  ghost predicate TakenBack(s: State, s': State, n: nat) {
    && n <= |s.busy| && s' == s.(busy := s.busy[n..], free := OursBack(s.bufs, s.busy, n) + s.free, bufs := s'.bufs)
    && s'.bufs.Keys == s.bufs.Keys
    && (forall k {:trigger UsedUp(s, k)} :: 0 <= k < n ==> UsedUp(s, k))
    && (forall i {:trigger EmptiedAt(s, s', n, i)} :: EmptiedAt(s, s', n, i))
  }

  ghost predicate UsedUp(s: State, k: int) {
    0 <= k < |s.busy| && s.busy[k] in s.bufs && Size(s.bufs[s.busy[k]]) == 0
  }

  ghost predicate EmptiedAt(s: State, s': State, n: nat, i: Id) {
    n <= |s.busy| && i in s.bufs && i in s'.bufs ==>
      s'.bufs[i] == if i in OursBack(s.bufs, s.busy, n) then s.bufs[i].(pos := 0, last := 0) else s.bufs[i]
  }

  lemma TakenOneMore(s: State, t: State, n: nat)
    requires Inv(t) && TakenBack(s, t, n) && t.busy != [] && t.busy[0] in t.bufs && Size(t.bufs[t.busy[0]]) == 0
    ensures TakenBack(s, Recycle(t), n + 1)
  {
    var t', n' := Recycle(t), n + 1;
    BusyHead(t);
    TakenHead(s, t, n);
    forall k | 0 <= k < n' ensures UsedUp(s, k) { assert k < n ==> UsedUp(s, k); }
    forall i ensures EmptiedAt(s, t', n', i) { EmptiedMore(s, t, n, i); }
    if s.bufs[s.busy[n]].ours { Regrouped(s.busy[n], OursBack(s.bufs, s.busy, n), s.free); }
  }

  lemma Regrouped(h: Id, x: seq<Id>, y: seq<Id>)
    ensures [h] + (x + y) == ([h] + x) + y
  {
  }

  lemma TakenHead(s: State, t: State, n: nat)
    requires TakenBack(s, t, n) && t.busy != [] && t.busy[0] in t.bufs && t.busy[0] !in t.free
    ensures n < |s.busy| && t.busy[0] == s.busy[n] && t.busy[1..] == s.busy[n + 1..]
    ensures s.busy[n] in s.bufs && t.bufs[s.busy[n]] == s.bufs[s.busy[n]]
  {
    assert EmptiedAt(s, t, n, s.busy[n]);
  }

  lemma EmptiedMore(s: State, t: State, n: nat, i: Id)
    requires n < |s.busy| && t.busy != [] && t.busy[0] == s.busy[n] && s.busy[n] in s.bufs && s.busy[n] in t.bufs
    requires t.bufs[s.busy[n]] == s.bufs[s.busy[n]] && EmptiedAt(s, t, n, i)
    ensures EmptiedAt(s, Recycle(t), n + 1, i)
  {
  }

  /** The input stands for what it stood for, and no data begins to say something. */
  ghost predicate SameInput(s: State, s': State) {
    && s'.input == s.input
    && Text(s'.bufs, s.input) == Text(s.bufs, s.input) && (Mute(s.bufs) ==> Mute(s'.bufs))
  }

  lemma RecycledMute(t: State)
    requires t.busy != [] && t.busy[0] in t.bufs && BufOk(t.bufs[t.busy[0]]) && Mute(t.bufs)
    ensures Mute(Recycle(t).bufs)
  {
    var h := t.busy[0];
    assert QuietAt(t.bufs, h);
    if t.bufs[h].ours { MuteUpdated(t.bufs, h, t.bufs[h].(pos := 0, last := 0)); }
  }

  lemma TakenNext(s: State, t: State, n: nat)
    requires Inv(t) && TakenBack(s, t, n) && SameInput(s, t)
    requires t.busy != [] && t.busy[0] in t.bufs && Size(t.bufs[t.busy[0]]) == 0
    ensures Inv(Recycle(t)) && TakenBack(s, Recycle(t), n + 1) && SameInput(s, Recycle(t))
  {
    Recycled(t);
    TakenOneMore(s, t, n);
    BusyHead(t);
    if Mute(t.bufs) { RecycledMute(t); }
  }

  /** The free buffers are those of before and the context's own among the first n busy ones. */
  ghost predicate FreeAgain(s: State, free: seq<Id>, n: nat) {
    forall i {:trigger FreeAt(s, free, n, i)} :: FreeAt(s, free, n, i)
  }

  ghost predicate FreeAt(s: State, free: seq<Id>, n: nat, i: Id) {
    n <= |s.busy| && (i in free <==> i in s.free || (i in s.busy[..n] && i in s.bufs && s.bufs[i].ours))
  }

  /** What is left in front was not taken back and is not used up. */
  lemma AllTaken(s: State, t: State, n: nat)
    requires Inv(t) && TakenBack(s, t, n)
    requires t.busy != [] ==> t.busy[0] in t.bufs && Size(t.bufs[t.busy[0]]) != 0
    ensures t.busy != [] ==> t.busy[0] in s.bufs && Size(s.bufs[t.busy[0]]) != 0
    ensures FreeAgain(s, t.free, n)
  {
    if t.busy != [] {
      BusyHead(t);
      assert EmptiedAt(s, t, n, t.busy[0]);
    }
    forall i ensures FreeAt(s, t.free, n, i) { OursBackIs(s.bufs, s.busy, n, i); }
  }

  // ----- what a caller brings -----

  ghost predicate Differ(ids: seq<Id>, i: int, j: int) { 0 <= i < j < |ids| ==> ids[i] != ids[j] }

  ghost predicate Distinct(ids: seq<Id>) { forall i, j {:trigger Differ(ids, i, j)} :: Differ(ids, i, j) }

  /** New buffers in order, each once, with other tags, and none in use. */
  ghost predicate Submission(s: State, ids: seq<Id>, data: Store, limit: Id) {
    && data.Keys == (set i | i in ids) && Distinct(ids)
    && forall i {:trigger Unused(s, data, i)} :: i in data ==> i < limit && BufOk(data[i]) && Unused(s, data, i)
  }

  ghost predicate Unused(s: State, m: Store, i: Id) {
    i != 0 && i in m && !m[i].ours && i !in Everything(s) && i !in s.owed
  }

  lemma {:induction false} EachOnce(ids: seq<Id>, x: Id)
    requires Distinct(ids)
    ensures multiset(ids)[x] <= 1
  {
    if ids != [] {
      var n := |ids| - 1;
      var most := ids[..n];
      assert ids == most + [ids[n]];
      forall i, j ensures Differ(most, i, j) { assert Differ(ids, i, j); }
      forall i | 0 <= i < n ensures most[i] != ids[n] { assert Differ(ids, i, n); }
      EachOnce(most, x);
    }
  }

  /** The caller's buffers are in memory, in no chain yet. */
  lemma Brought(s: State, ids: seq<Id>, data: Store, limit: Id)
    requires Inv(s) && Submission(s, ids, data, limit)
    ensures var s' := s.(bufs := s.bufs + data);
      && Inv(s') && Ready(s', ids)
      && Text(s'.bufs, s.input) == Text(s.bufs, s.input) && Text(s'.bufs, ids) == Text(data, ids)
  {
    var s' := s.(bufs := s.bufs + data);
    BroughtInv(s, ids, data, limit);
    AllKnown(s);
    BroughtReady(s, s', ids, data, limit);
    forall i | i in s.input ensures i !in data { assert i in Everything(s) && (i in data ==> Unused(s, data, i)); }
    TextSame(s.bufs, s'.bufs, s.input);
    TextSame(data, s'.bufs, ids);
  }

  lemma BroughtMute(m: Store, data: Store)
    requires Mute(m) && Mute(data)
    ensures Mute(m + data)
  {
    forall i ensures QuietAt(m + data, i) { assert QuietAt(m, i) && QuietAt(data, i); }
  }

  lemma BroughtReady(s: State, s': State, ids: seq<Id>, data: Store, limit: Id)
    requires Submission(s, ids, data, limit) && s' == s.(bufs := s.bufs + data)
    ensures Ready(s', ids) && Known(data, ids) && forall i :: i in ids ==> s'.bufs[i] == data[i]
  {
    forall i | i in ids ensures i in data && BufOk(data[i]) && Unused(s', s'.bufs, i) {
      assert i in data.Keys && Unused(s, data, i);
    }
  }

  lemma BroughtInv(s: State, ids: seq<Id>, data: Store, limit: Id)
    requires Inv(s) && Submission(s, ids, data, limit)
    ensures Inv(s.(bufs := s.bufs + data))
  {
    var s' := s.(bufs := s.bufs + data);
    forall i ensures Once(s', i) { assert Once(s, i); }
    forall i ensures Placed(s', i) && Intact(s', i) {
      assert Placed(s, i) && Intact(s, i) && (i in data ==> Unused(s, data, i));
      BroughtAt(s, s', data, i);
    }
    forall i | i in Everything(s) ensures i in s.bufs && i !in data {
      assert Placed(s, i) && (i in data ==> Unused(s, data, i));
    }
    BroughtOurs(s, data);
  }

  lemma BroughtAt(s: State, s': State, data: Store, i: Id)
    requires s' == s.(bufs := s.bufs + data) && Placed(s, i) && Intact(s, i)
    requires i in data ==> i !in Everything(s) && i !in s.owed
    ensures Placed(s', i) && Intact(s', i)
  {
  }

  lemma BroughtOurs(s: State, data: Store)
    requires forall i :: i in Everything(s) ==> i in s.bufs && i !in data
    ensures forall x {:trigger Ours(s.bufs + data, x)} :: x in [s.out, s.busy, s.free, s.cur] ==>
      Ours(s.bufs + data, x) == Ours(s.bufs, x)
  {
    forall x | x in [s.out, s.busy, s.free, s.cur] ensures Ours(s.bufs + data, x) == Ours(s.bufs, x) {
      forall i | i in x ensures i in Everything(s) { }
      OursSame(s.bufs, s.bufs + data, x);
    }
  }

  /** Each new id occurs once more. */
  lemma OneMore(s: State, s': State, ids: seq<Id>, i: Id)
    requires Everything(s') == Everything(s) + multiset(ids) && Once(s, i) && (i in ids ==> i !in Everything(s))
    requires Distinct(ids)
    ensures Once(s', i) && (i in Everything(s') <==> i in Everything(s) || i in ids)
  {
    EachOnce(ids, i);
  }

  ghost predicate Ready(s: State, ids: seq<Id>) {
    && Known(s.bufs, ids) && Distinct(ids)
    && forall i {:trigger Unused(s, s.bufs, i)} :: i in ids ==> Unused(s, s.bufs, i)
  }

  lemma LinedInv(s: State, ids: seq<Id>)
    requires Inv(s) && Ready(s, ids)
    ensures Inv(s.(input := s.input + ids))
  {
    var s' := s.(input := s.input + ids);
    assert Everything(s') == Everything(s) + multiset(ids) by {
      assert multiset(s'.input) == multiset(s.input) + multiset(ids);
    }
    forall i ensures Once(s', i) && Placed(s', i) && Intact(s', i) {
      assert Once(s, i) && Placed(s, i) && Intact(s, i) && (i in ids ==> Unused(s, s.bufs, i));
      OneMore(s, s', ids, i);
    }
  }

  /** They line up behind the input: ngx_output_chain_add_copy. */
  lemma Lined(s: State, ids: seq<Id>)
    requires Inv(s) && Ready(s, ids)
    ensures var s' := s.(input := s.input + ids);
      Inv(s') && Text(s.bufs, s'.input) == Text(s.bufs, s.input) + Text(s.bufs, ids)
  {
    LinedInv(s, ids);
    TextJoin(s.bufs, s.input, ids);
  }

  /** They go to the filter at once: lines 56-67. */
  lemma Offered(s: State, ids: seq<Id>)
    requires Inv(s) && s.out == [] && Ready(s, ids)
    ensures Inv(s.(out := ids)) && Ours(s.bufs, ids) == 0
  {
    var s' := s.(out := ids);
    assert Everything(s') == Everything(s) + multiset(ids);
    forall i ensures Once(s', i) && Placed(s', i) && Intact(s', i) {
      assert Once(s, i) && Placed(s, i) && Intact(s, i) && (i in ids ==> Unused(s, s.bufs, i));
      OneMore(s, s', ids, i);
    }
    forall i | i in ids ensures i in s.bufs && !s.bufs[i].ours { assert Unused(s, s.bufs, i); }
    OursNone(s.bufs, ids);
  }

  /** What went to the filter at once is in no chain afterwards. */
  lemma LetGo(s: State)
    requires Inv(s) && Ours(s.bufs, s.out) == 0
    ensures Inv(s.(out := []))
  {
    Moved(s, s.(out := []));
  }

  /** A buffer in no chain changes in ways that do not touch what it stands for. */
  lemma OutsideMarked(s: State, ids: seq<Id>, h: Id, b: Buf)
    requires Inv(s) && Ready(s, ids) && h in ids && h in s.bufs && BufOk(s.bufs[h]) && BufOk(b) && !b.ours &&
             Tokens(b) == Tokens(s.bufs[h])
    ensures var s' := s.(bufs := s.bufs[h := b]);
      && Inv(s') && Ready(s', ids)
      && Text(s'.bufs, s.input) == Text(s.bufs, s.input) && Text(s'.bufs, ids) == Text(s.bufs, ids)
  {
    var s' := s.(bufs := s.bufs[h := b]);
    AllKnown(s);
    OutsideInv(s, s', h, b);
    forall i | i in ids ensures Unused(s', s'.bufs, i) { assert Unused(s, s.bufs, i); }
    TextSame(s.bufs, s'.bufs, s.input);
    TextSame(s.bufs, s'.bufs, ids);
  }

  lemma OutsideInv(s: State, s': State, h: Id, b: Buf)
    requires Inv(s) && Unused(s, s.bufs, h) && BufOk(b) && !b.ours && s' == s.(bufs := s.bufs[h := b])
    ensures Inv(s')
  {
    AllKnown(s);
    forall i ensures Once(s', i) && Placed(s', i) && Intact(s', i) {
      assert Once(s, i) && Placed(s, i) && Intact(s, i);
    }
    OursAfter(s, s');
    OursSame(s.bufs, s'.bufs, s.cur);
  }
}
