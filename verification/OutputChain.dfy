/**
 The output chain of src/core/ngx_output_chain.c: buffers that the next filter cannot take
 as they are get copied into a bounded number of temporary buffers, which are used again
 when the filter is done with them.  The filter is an input: at its k-th call it takes
 eat(k, i, n) of the n bytes of each buffer i it was given so far and returns answer(k).  Reading a
 file succeeds; there is no aio.
 */
module OutputChain {
  import opened OutputBufs

  type Positive = x: nat | 0 < x witness 1

  datatype Code = Ok | Again | Done | Error

  predicate GoesOn(rc: Code) { rc == Ok || rc == Again }

  /** Lines 197-212: the filter's last answer, but AGAIN for OK while there is input left. */
  function Reply(last: Code, left: bool): Code { if GoesOn(last) && left then Again else last }

  function Eater(eat: (nat, Id, nat) -> nat, k: nat): (Id, nat) -> nat { (i, n) => eat(k, i, n) }

  ghost predicate Passes(answer: nat -> Code, k: nat) { GoesOn(answer(k)) }

  /** The filter answered calls c to n - 1, all but the last with OK or AGAIN. */
  ghost predicate Lasted(answer: nat -> Code, c: nat, n: nat) {
    c < n && forall k {:trigger Passes(answer, k)} :: c <= k < n - 1 ==> Passes(answer, k)
  }

  lemma LastedMore(answer: nat -> Code, c: nat, n: nat)
    requires n == c || (Lasted(answer, c, n) && GoesOn(answer(n - 1)))
    ensures Lasted(answer, c, n + 1)
  {
  }

  /** Where a call began: the filter's calls and the stray signs so far, and whether all data was mute. */
  datatype Start = Start(calls: nat, strays: nat, quiet: bool)

  class Context {
    const num: nat                // bufs.num
    const size: Positive          // bufs.size
    const alignment: Positive
    const sendfile: bool
    const needInMemory: bool
    const needInTemp: bool
    const limit: Positive         // the callers' buffers have ids below this, the context's own from here on
    const eat: (nat, Id, nat) -> nat
    const answer: nat -> Code

    var bufs: Store
    var input: seq<Id>
    var busy: seq<Id>
    var free: seq<Id>
    var buf: Id
    var made: int                 // ctx->allocated
    var directio: bool
    var next: Id
    var owed: map<Id, seq<Byte>>  // what the filter has still to take
    var calls: nat
    ghost var asked: seq<Token>   // what all buffers ever submitted stood for
    ghost var sent: seq<Token>    // what all buffers ever given to the filter stood for
    ghost var fits: bool          // all of those were such that the filter can deal with them
    ghost var strays: nat         // signs that were left in a buffer from its last use and went out again

    ghost function View(out: seq<Id>): State
      reads this
    {
      State(bufs, input, out, busy, free, if buf == 0 then [] else [buf], made, owed)
    }

    /** Ids of the context's own buffers are fresh. */
    ghost predicate Fresh()
      reads this
    {
      limit <= next && Below(bufs, next)
    }

    /** The filter can deal with the buffer. */
    predicate Fits(b: Buf) { Special(b) || Suits(b) }

    ghost predicate OutFits(m: Store, out: seq<Id>) { forall i :: i in out ==> i in m && Fits(m[i]) }

    /** What the filter was given and what is left in the input account for all that was submitted. */
    ghost predicate Settles()
      reads this
    {
      Squared(sent, bufs, input, asked, strays) && fits
    }

    /** The first busy buffer has bytes that the filter has still to take. */
    ghost predicate HeadOwed()
      reads this
    {
      busy != [] ==> busy[0] in owed
    }

    ghost predicate Valid()
      reads this
    {
      Inv(View([])) && Settles() && buf == 0 && Fresh() && made <= num && HeadOwed()
    }

    /** The filter takes all it can see. */
    ghost predicate Greedy() { forall k, i, n :: eat(k, i, n) >= n }

    /** The filter answered since, and from mute data nothing strayed. */
    ghost predicate Since(z: Start)
      reads this
    {
      Lasted(answer, z.calls, calls) && (z.quiet ==> Mute(bufs) && strays == z.strays)
    }

    ghost function Now(): Start
      reads this
    {
      Start(calls, strays, Mute(bufs))
    }

    ghost predicate Replies(r: Code)
      reads this
    {
      calls > 0 && r == Reply(answer(calls - 1), input != [])
    }

    /** Input is left only for want of buffers: all are made and with the filter, which has still to take some. */
    ghost predicate Drained()
      reads this
    {
      input != [] ==> free == [] && made == num && (num >= 1 ==> busy != [] && busy[0] in owed)
    }

    constructor (num: nat, size: Positive, alignment: Positive, sendfile: bool, needInMemory: bool, needInTemp: bool,
                 limit: Positive, eat: (nat, Id, nat) -> nat, answer: nat -> Code)
      ensures Valid() && asked == [] && sent == [] && strays == 0 && made == 0 && this.num == num
    {
      this.num, this.size, this.alignment := num, size, alignment;
      this.sendfile, this.needInMemory, this.needInTemp := sendfile, needInMemory, needInTemp;
      this.limit, this.eat, this.answer := limit, eat, answer;
      bufs, input, busy, free, buf := map[], [], [], [], 0;
      made, directio, next, owed, calls := 0, false, limit, map[], 0;
      asked, sent, strays, fits := [], [], 0, true;
      new;
      Empty(View([]));
      AccountsSame([]);
    }

    /** What the next filter can deal with. */
    predicate Suits(b: Buf) {
      && (b.inFile ==> !b.file.directio) && (!sendfile || needInMemory ==> InMemory(b))
      && (needInTemp ==> !b.memory && !b.mmap)
    }

    /** ngx_output_chain_as_is: whether the filter can take the buffer as it is, with in_file cleared if need be. */
    method AsIs(b: Buf) returns (ok: bool, c: Buf)
      requires BufOk(b)
      ensures Cleared(b, c) && (ok <==> Fits(c)) && (Special(b) ==> ok)
    {
      c := b;
      if Special(b) {
        return true, c;
      }
      if b.inFile && b.file.directio {
        return false, c;
      }
      if !sendfile {
        if !InMemory(b) {
          return false, c;
        }
        c := b.(inFile := false);
      }
      if needInMemory && !InMemory(b) {
        return false, c;
      }
      if needInTemp && (b.memory || b.mmap) {
        return false, c;
      }
      return true, c;
    }

    /** ngx_output_chain_align_file_buf: a buffer that ends at a sector boundary, for directio. */
    method AlignFileBuf(bsize: nat) returns (declined: bool)
      requires input != [] && input[0] in bufs && bsize > 0 && Fresh() && buf == 0
      modifies this`bufs, this`buf, this`directio, this`next
      ensures Fresh() && (declined ==> bufs == old(bufs) && buf == 0) &&
              (old(bufs[input[0]].file.directio) ==> directio)
      ensures declined <==>
        var b := old(bufs[input[0]]); !b.file.directio || (b.filePos % alignment == 0 && bsize >= size)
      ensures !declined ==> buf == old(next) && buf !in old(bufs)
      ensures !declined ==> exists b ::
        && BufOk(b) && Blank(b) && Quiet(b) && !b.ours && bufs == old(bufs)[buf := b]
        && EndsAligned(b, old(bufs[input[0]].filePos), bsize, alignment)
    {
      var b := bufs[input[0]];
      if !b.file.directio {
        return true;
      }
      directio := true;
      var n := b.filePos % alignment;
      if n == 0 {
        if bsize >= size {
          return true;
        }
        n := bsize;
      } else {
        NextSector(b.filePos, alignment);
        n := alignment - n;
        if n > bsize {
          n := bsize;
        }
      }
      ghost var before := bufs;
      var t := NewBuf(n, false, false);
      buf := next;
      bufs := bufs[next := t];
      next := next + 1;
      assert bufs == before[buf := t];
      return false;
    }

    /** ngx_output_chain_get_buf */
    method GetBuf(bsize: nat)
      requires input != [] && input[0] in bufs && bsize > 0 && Fresh() && buf == 0
      modifies this`bufs, this`buf, this`made, this`next
      ensures Fresh() && made == old(made) + 1 && buf == old(next) && buf !in old(bufs)
      ensures exists b ::
        && BufOk(b) && Blank(b) && Quiet(b) && b.ours && bufs == old(bufs)[buf := b] && |b.mem| <= size + size / 4
        && if b.recycled then |b.mem| == size else |b.mem| == bsize && old(bufs[input[0]].lastInChain)
    {
      var n, recycled := size, true;
      if bufs[input[0]].lastInChain {
        if bsize < n {
          n, recycled := bsize, false;
        } else if !directio && num == 1 && bsize < n + n / 4 {
          n, recycled := bsize, false;
        }
      }
      ghost var before := bufs;
      var t := NewBuf(n, true, recycled);
      buf := next;
      bufs := bufs[next := t];
      next := next + 1;
      made := made + 1;
      assert bufs == before[buf := t];
    }

    /** The copy is in memory, and in a file only if that may be sent. */
    lemma CopySuits(d: Buf, file: File, keepFile: bool)
      requires d.temporary && !d.memory && !d.mmap && (d.inFile ==> keepFile && d.file == file)
      requires keepFile ==> !file.directio
      ensures Suits(d)
    {
    }

    /** ngx_output_chain_copy_buf: a piece of the first input buffer goes to the current one. */
    method CopyBuf(ghost t: State) returns (ghost b: Buf, ghost d: Buf, ghost k: nat)
      requires buf != 0 && t == View(t.out) && Inv(t) && input != [] && input[0] in bufs && Size(bufs[input[0]]) > 0
      requires OutFits(bufs, t.out) && (bufs[input[0]].file.directio ==> directio)
      modifies this`bufs
      ensures |t.cur| == 1 && bufs == Copy(t, b, d).bufs && input[0] in bufs && bufs[input[0]] == b
      ensures d.inFile <==> sendfile && !directio && old(bufs[input[0]].inFile)
      ensures Inv(After(t, b, d)) && Kept(t, After(t, b, d), k) && Measure(After(t, b, d)) < Measure(t)
      ensures OutFits(bufs, t.out + [buf]) && (Below(old(bufs), next) ==> Below(bufs, next))
    {
      InputHead(t);
      CurHead(t);
      var src, dst := bufs[input[0]], bufs[buf];
      var b', d' := CopyPiece(src, dst, sendfile && !directio);
      b, d, k := b', d', Left(dst, b');
      CopyGoes(t, b, d, k, sendfile && !directio, next);
      bufs := bufs[input[0] := b'];
      bufs := bufs[buf := d'];
    }

    lemma CopyGoes(t: State, b: Buf, d: Buf, k: nat, keepFile: bool, next: Id)
      requires Inv(t) && t.input != [] && |t.cur| == 1 && t.input[0] in t.bufs && t.cur[0] in t.bufs
      requires Pieced(t.bufs[t.input[0]], t.bufs[t.cur[0]], b, d, k, keepFile) && OutFits(t.bufs, t.out)
      requires !t.bufs[t.input[0]].ours && BufOk(t.bufs[t.input[0]])
      requires keepFile ==> sendfile && !t.bufs[t.input[0]].file.directio
      ensures Inv(After(t, b, d)) && Kept(t, After(t, b, d), k) && Measure(After(t, b, d)) < Measure(t)
      ensures OutFits(Copy(t, b, d).bufs, t.out + [t.cur[0]])
      ensures Below(t.bufs, next) ==> Below(Copy(t, b, d).bufs, next)
    {
      CopySuits(d, t.bufs[t.input[0]].file, keepFile);
      CopiedOver(t, b, d, k);
      CopyFits(t, b, d);
      if Below(t.bufs, next) { assert t.input[0] < next && t.cur[0] < next; }
    }

    lemma CopyFits(t: State, b: Buf, d: Buf)
      requires Inv(t) && t.input != [] && |t.cur| == 1 && OutFits(t.bufs, t.out) && Suits(d)
      ensures OutFits(Copy(t, b, d).bufs, t.out + [t.cur[0]])
    {
      InputHead(t);
      CurHead(t);
    }

    /** One round of the loop of lines 90-195 when a copy is needed: false if there is no buffer to copy to. */
    method CopyOne(out0: seq<Id>, ghost s: State) returns (more: bool, out: seq<Id>, ghost s': State, ghost k: nat)
      requires View(out0) == s && Inv(s) && s.cur == [] && Fresh() && made <= num
      requires input != [] && input[0] in bufs && Size(bufs[input[0]]) > 0 && OutFits(bufs, out0)
      modifies this`bufs, this`input, this`free, this`buf, this`made, this`directio, this`next, this`strays
      ensures View(out) == s' && Inv(s') && s'.cur == [] && Fresh() && made <= num && OutFits(bufs, out)
      ensures strays == old(strays) + k && Kept(s, s', k)
      ensures if more then out != [] && Measure(s') < Measure(s)
              else s'.input == s.input && s'.bufs == s.bufs && out == out0 && free == [] && (out0 != [] || made == num)
    {
      ghost var t;
      more, t := Provide(out0, s);
      out, s', k := out0, t, 0;
      if !more {
        return;
      }
      out, s', k := CopyOver(out0, t);
      KeptTrans(s, t, s', 0, k);
    }

    method CopyNext(out0: seq<Id>, ghost first: State, ghost s: State)
        returns (more: bool, out: seq<Id>, ghost s': State, ghost k: nat)
      requires View(out0) == s && Inv(s) && s.cur == [] && Fresh() && made <= num
      requires input != [] && input[0] in bufs && Size(bufs[input[0]]) > 0 && OutFits(bufs, out0)
      requires Kept(first, s, 0) && first.out == s.out
      modifies this`bufs, this`input, this`free, this`buf, this`made, this`directio, this`next, this`strays
      ensures View(out) == s' && Inv(s') && s'.cur == [] && Fresh() && made <= num && OutFits(bufs, out)
      ensures strays == old(strays) + k && Kept(first, s', k)
      ensures if more then Measure(s') < Measure(s)
              else Measure(s') == Measure(s) && out == out0 && free == [] && (out0 != [] || made == num)
    {
      more, out, s', k := CopyOne(out0, s);
      KeptTrans(first, s, s', 0, k);
    }

    /** Lines 165-194: the current buffer is filled and joins the output. */
    method CopyOver(out0: seq<Id>, ghost t: State) returns (out: seq<Id>, ghost s': State, ghost k: nat)
      requires View(out0) == t && Inv(t) && |t.cur| == 1 && buf != 0 && Fresh() && input != []
      requires input[0] in bufs && Size(bufs[input[0]]) > 0 && OutFits(bufs, out0)
      requires bufs[input[0]].file.directio ==> directio
      modifies this`bufs, this`input, this`buf, this`strays
      ensures View(out) == s' && Inv(s') && s'.cur == [] && Fresh() && out == out0 + [old(buf)] && OutFits(bufs, out)
      ensures strays == old(strays) + k && Kept(t, s', k) && Measure(s') < Measure(t)
    {
      ghost var b, d;
      b, d, k := CopyBuf(t);
      strays := strays + k;
      out := out0 + [buf];
      buf := 0;
      if Size(bufs[input[0]]) == 0 {
        input := input[1..];
      }
      s' := After(t, b, d);
    }

    /** Lines 135-163: a buffer to copy to. */
    method Provide(out: seq<Id>, ghost s: State) returns (found: bool, ghost t: State)
      requires View(out) == s && Inv(s) && s.cur == [] && Fresh() && made <= num
      requires input != [] && input[0] in bufs && Size(bufs[input[0]]) > 0
      modifies this`bufs, this`free, this`buf, this`made, this`directio, this`next
      ensures View(out) == t && Inv(t) && Fresh() && made <= num && Kept(s, t, 0) && t.input == s.input &&
              Text(t.bufs, t.input) == Text(s.bufs, s.input)
      ensures input[0] in bufs && bufs[input[0]] == old(bufs[input[0]]) && (bufs[input[0]].file.directio ==> directio)
      ensures t.out == s.out
      ensures if found then |t.cur| == 1 && buf != 0 else t == s && free == [] && (out != [] || made == num)
    {
      found, t := Align(out, s);
      if !found {
        found, t := Pick(Size(bufs[input[0]]), out, s);
      }
    }

    /** Lines 137-145 */
    method Align(ghost out: seq<Id>, ghost s: State) returns (found: bool, ghost t: State)
      requires View(out) == s && Inv(s) && s.cur == [] && Fresh()
      requires input != [] && input[0] in bufs && Size(bufs[input[0]]) > 0
      modifies this`bufs, this`buf, this`directio, this`next
      ensures View(out) == t && Inv(t) && Fresh() && Kept(s, t, 0) && t.input == s.input && t.out == s.out &&
              Text(t.bufs, t.input) == Text(s.bufs, s.input)
      ensures input[0] in bufs && bufs[input[0]] == old(bufs[input[0]]) && (bufs[input[0]].file.directio ==> directio)
      ensures if found then |t.cur| == 1 && buf != 0 else t == s && buf == 0
    {
      AllKnown(s);
      KeptSame(s);
      t := s;
      var declined := AlignFileBuf(Size(bufs[input[0]]));
      found := !declined;
      if found {
        ghost var b :| BufOk(b) && Blank(b) && Quiet(b) && !b.ours && bufs == s.bufs[buf := b];
        CurMade(s, buf, b);
        t := s.(bufs := bufs, cur := [buf]);
      }
    }

    /** Lines 147-163: a free buffer, or a new one if there may be more. */
    method Pick(bsize: nat, out: seq<Id>, ghost s: State) returns (found: bool, ghost t: State)
      requires View(out) == s && Inv(s) && s.cur == [] && buf == 0 && Fresh() && made <= num && bsize > 0
      requires input != [] && input[0] in bufs
      modifies this`bufs, this`free, this`buf, this`made, this`next
      ensures t.out == s.out
      ensures View(out) == t && Inv(t) && Fresh() && made <= num && Kept(s, t, 0) && t.input == s.input &&
              Text(t.bufs, t.input) == Text(s.bufs, s.input)
      ensures input[0] in bufs && bufs[input[0]] == old(bufs[input[0]])
      ensures if found then |t.cur| == 1 && buf != 0 else t == s && free == [] && (out != [] || made == num)
    {
      if free != [] {
        t := TakeFree(out, s);
        return true, t;
      }
      AllKnown(s);
      if out != [] || made == num {
        KeptSame(s);
        return false, s;
      }
      t := Make(bsize, out, s);
      return true, t;
    }

    /** Lines 149-151 */
    method TakeFree(ghost out: seq<Id>, ghost s: State) returns (ghost t: State)
      requires View(out) == s && Inv(s) && s.cur == [] && buf == 0 && free != []
      modifies this`free, this`buf
      ensures View(out) == t && Inv(t) && Kept(s, t, 0) && t.bufs == s.bufs && t.input == s.input
      ensures |t.cur| == 1 && buf != 0 && t.made == s.made
    {
      FreeTaken(s);
      FreeIds(s);
      buf := free[0];
      free := free[1..];
      t := s.(free := free, cur := [buf]);
    }

    /** Line 159: a new buffer of the context. */
    method Make(bsize: nat, ghost out: seq<Id>, ghost s: State) returns (ghost t: State)
      requires View(out) == s && Inv(s) && buf == 0 && Fresh() && bsize > 0
      requires input != [] && input[0] in bufs
      modifies this`bufs, this`buf, this`made, this`next
      ensures View(out) == t && Inv(t) && Fresh() && made == old(made) + 1 && Kept(s, t, 0) && t.input == s.input
      ensures Text(t.bufs, t.input) == Text(s.bufs, s.input) && |t.cur| == 1 && buf != 0
      ensures input[0] in bufs && bufs[input[0]] == old(bufs[input[0]])
    {
      GetBuf(bsize);
      ghost var b :| BufOk(b) && Blank(b) && Quiet(b) && b.ours && bufs == s.bufs[buf := b];
      CurMade(s, buf, b);
      t := s.(bufs := bufs, cur := [buf], made := s.made + 1);
    }

    /** One round of the loop of lines 90-195. */
    method Round(out0: seq<Id>, ghost s: State) returns (more: bool, out: seq<Id>, ghost s': State, ghost k: nat)
      requires View(out0) == s && Inv(s) && s.cur == [] && Fresh() && made <= num &&
               input != [] && OutFits(bufs, out0)
      modifies this`bufs, this`input, this`free, this`buf, this`made, this`directio, this`next, this`strays
      ensures View(out) == s' && Inv(s') && s'.cur == [] && Fresh() && made <= num && OutFits(bufs, out)
      ensures strays == old(strays) + k && Kept(s, s', k)
      ensures if more then Measure(s') < Measure(s)
              else Measure(s') == Measure(s) && out == out0 && free == [] && (out0 != [] || made == num)
    {
      InputHead(s);
      AllKnown(s);
      var h := input[0];
      if Size(bufs[h]) == 0 && !Special(bufs[h]) {
        Dropped(s);
        input := input[1..];
        return true, out0, Drop(s), 0;
      }
      more, out, s', k := Move(out0, s);
    }

    /** Lines 119-194 */
    method Move(out0: seq<Id>, ghost s: State) returns (more: bool, out: seq<Id>, ghost s': State, ghost k: nat)
      requires View(out0) == s && Inv(s) && s.cur == [] && Fresh() && made <= num
      requires input != [] && OutFits(bufs, out0) && input[0] in bufs && BufOk(bufs[input[0]])
      requires Size(bufs[input[0]]) != 0 || Special(bufs[input[0]])
      modifies this`bufs, this`input, this`free, this`buf, this`made, this`directio, this`next, this`strays
      ensures View(out) == s' && Inv(s') && s'.cur == [] && Fresh() && made <= num && OutFits(bufs, out)
      ensures strays == old(strays) + k && Kept(s, s', k)
      ensures if more then Measure(s') < Measure(s)
              else Measure(s') == Measure(s) && out == out0 && free == [] && (out0 != [] || made == num)
    {
      var ok;
      ghost var t;
      ok, t := Judge(out0, s);
      more, out, s', k := Forward(ok, out0, s, t);
    }

    /** Lines 121-194: the first input buffer is passed on or copied. */
    method Forward(ok: bool, out0: seq<Id>, ghost first: State, ghost s: State)
        returns (more: bool, out: seq<Id>, ghost s': State, ghost k: nat)
      requires View(out0) == s && Inv(s) && s.cur == [] && Fresh() && made <= num
      requires input != [] && input[0] in bufs && OutFits(bufs, out0)
      requires if ok then Fits(bufs[input[0]]) else Size(bufs[input[0]]) > 0
      requires Kept(first, s, 0) && first.out == s.out
      modifies this`bufs, this`input, this`free, this`buf, this`made, this`directio, this`next, this`strays
      ensures View(out) == s' && Inv(s') && s'.cur == [] && Fresh() && made <= num && OutFits(bufs, out)
      ensures strays == old(strays) + k && Kept(first, s', k)
      ensures if more then Measure(s') < Measure(s)
              else Measure(s') == Measure(s) && out == out0 && free == [] && (out0 != [] || made == num)
    {
      if ok {
        out := PassOn(out0, first, s);
        more, s', k := true, Pass(s), 0;
      } else {
        more, out, s', k := CopyNext(out0, first, s);
      }
    }

    /** Line 119: can the first input buffer be passed on as it is? */
    method Judge(ghost out: seq<Id>, ghost s: State) returns (ok: bool, ghost t: State)
      requires View(out) == s && Inv(s) && Fresh() && input != [] && input[0] in bufs && BufOk(bufs[input[0]])
      requires OutFits(bufs, out)
      requires Size(bufs[input[0]]) != 0 || Special(bufs[input[0]])
      modifies this`bufs
      ensures View(out) == t && Inv(t) && Fresh() && Kept(s, t, 0) && t == s.(bufs := t.bufs)
      ensures Text(t.bufs, t.input) == Text(s.bufs, s.input)
      ensures input[0] in bufs && OutFits(bufs, out) && (ok ==> Fits(bufs[input[0]])) &&
              (!ok ==> Size(bufs[input[0]]) > 0)
    {
      InputHead(s);
      var c;
      ok, c := AsIs(bufs[input[0]]);
      Judged(s, c);
      bufs := bufs[input[0] := c];
      t := s.(bufs := bufs);
    }

    lemma Judged(s: State, c: Buf)
      requires Inv(s) && s.input != [] && s.input[0] in s.bufs && BufOk(s.bufs[s.input[0]]) && OutFits(s.bufs, s.out)
      requires Size(s.bufs[s.input[0]]) != 0 || Special(s.bufs[s.input[0]])
      requires Cleared(s.bufs[s.input[0]], c)
      ensures var t := s.(bufs := s.bufs[s.input[0] := c]);
        Inv(t) && Kept(s, t, 0) && Text(t.bufs, t.input) == Text(s.bufs, s.input) && OutFits(t.bufs, t.out)
      ensures Special(c) || Size(c) > 0
      ensures Below(s.bufs, next) ==> Below(s.bufs[s.input[0] := c], next)
    {
      var h := s.input[0];
      InputHead(s);
      SameTokens(s.bufs[h], c);
      Marked(s, c);
    }

    /** Lines 121-130 */
    method PassOn(out0: seq<Id>, ghost s: State, ghost t: State) returns (out: seq<Id>)
      requires View(out0) == t && Inv(t) && input != [] && input[0] in bufs && OutFits(bufs, out0) &&
               Fits(bufs[input[0]])
      requires Kept(s, t, 0) && s.out == t.out
      modifies this`input
      ensures View(out) == Pass(t) && Inv(Pass(t)) && Kept(s, Pass(t), 0) && OutFits(bufs, out)
      ensures Measure(Pass(t)) < Measure(t)
    {
      Passing(s, t);
      out := out0 + [input[0]];
      input := input[1..];
    }

    lemma Passing(s: State, t: State)
      requires Inv(t) && t.input != [] && t.input[0] in t.bufs && OutFits(t.bufs, t.out) && Fits(t.bufs[t.input[0]])
      requires Kept(s, t, 0) && s.out == t.out
      ensures Inv(Pass(t)) && Kept(s, Pass(t), 0) && OutFits(t.bufs, Pass(t).out) && Measure(Pass(t)) < Measure(t)
    {
      Passed(t);
      KeptTrans(s, t, Pass(t), 0, 0);
    }

    /** The loop of lines 90-195: as much of the input as there are buffers for. */
    method FillOut(ghost s: State) returns (out: seq<Id>, ghost s': State, ghost k: nat)
      requires View([]) == s && Inv(s) && s.cur == [] && Fresh() && made <= num
      modifies this`bufs, this`input, this`free, this`buf, this`made, this`directio, this`next, this`strays
      ensures View(out) == s' && Inv(s') && s'.cur == [] && Fresh() && made <= num && OutFits(bufs, out)
      ensures strays == old(strays) + k && Kept(s, s', k)
      ensures Measure(s') <= Measure(s) && (out != [] ==> Measure(s') < Measure(s))
      ensures input == [] || (free == [] && (out != [] || made == num))
    {
      out, s', k := [], s, 0;
      AllKnown(s);
      KeptSame(s);
      while input != []
        invariant View(out) == s' && Inv(s') && s'.cur == [] && Fresh() && made <= num && OutFits(bufs, out)
        invariant strays == old(strays) + k && Kept(s, s', k)
        invariant Measure(s') <= Measure(s) && (out != [] ==> Measure(s') < Measure(s))
        decreases Measure(s')
      {
        var more;
        ghost var j := k;
        more, out, s', k := Step(out, s', s, j);
        k := j + k;
        if !more {
          break;
        }
      }
    }

    method Step(out0: seq<Id>, ghost s: State, ghost first: State, ghost j: nat)
        returns (more: bool, out: seq<Id>, ghost s': State, ghost k: nat)
      requires View(out0) == s && Inv(s) && s.cur == [] && Fresh() && made <= num &&
               input != [] && OutFits(bufs, out0) && first.out == [] && Kept(first, s, j)
      modifies this`bufs, this`input, this`free, this`buf, this`made, this`directio, this`next, this`strays
      ensures View(out) == s' && Inv(s') && s'.cur == [] && Fresh() && made <= num && OutFits(bufs, out)
      ensures strays == old(strays) + k && Kept(first, s', j + k)
      ensures if more then Measure(s') < Measure(s)
              else Measure(s') == Measure(s) && out == out0 && free == [] && (out0 != [] || made == num)
    {
      more, out, s', k := Round(out0, s);
      KeptTrans(first, s, s', j, k);
    }

    /** ctx->output_filter(ctx->filter_ctx, out) */
    method CallFilter(out: seq<Id>, ghost s: State) returns (rc: Code, ghost s': State)
      requires View(out) == s && Inv(s) && OutFits(bufs, out)
      modifies this`bufs, this`owed, this`calls, this`sent, this`fits
      ensures View(out) == s' && Inv(s') && s'.input == s.input &&
              Text(s'.bufs, s.input) == Text(s.bufs, s.input)
      ensures sent == old(sent) + Text(s.bufs, out) && fits == old(fits) && bufs.Keys == old(bufs).Keys
      ensures calls == old(calls) + 1 && rc == answer(old(calls)) && OutOwed(s') && (Greedy() ==> owed == map[])
      ensures (forall i :: i in bufs ==> bufs[i].ours == s.bufs[i].ours) && (Mute(s.bufs) ==> Mute(bufs))
    {
      sent, fits := sent + Text(bufs, out), fits && OutFits(bufs, out);
      s' := Feed(out, s);
      rc := answer(calls);
      calls := calls + 1;
    }

    /** The filter takes what it wants of the buffers it was given. */
    method Feed(out: seq<Id>, ghost s: State) returns (ghost s': State)
      requires View(out) == s && Inv(s)
      modifies this`bufs, this`owed
      ensures View(out) == s' && Fed(s, s', Greedy())
    {
      Filtered(s, Eater(eat, calls), Greedy());
      var now := State(bufs, input, out, busy, free, if buf == 0 then [] else [buf], made, owed);
      var after := Filter(now, Eater(eat, calls));
      bufs, owed := after.bufs, after.owed;
      s' := after;
    }

    /** ngx_chain_update_chains: out joins busy, and the longest prefix of used-up buffers is taken back. */
    method UpdateChains(out: seq<Id>, ghost s: State) returns (ghost s': State, ghost n: nat)
      requires View(out) == s && Inv(s) && OutOwed(s)
      modifies this`bufs, this`busy, this`free
      ensures View([]) == s' && Inv(s') && SameInput(s, s') && HeadOwed() &&
              TakenBack(s.(busy := s.busy + out, out := []), s', n)
      ensures busy != [] ==> busy[0] in s.bufs && Size(s.bufs[busy[0]]) != 0
      ensures FreeAgain(s.(busy := s.busy + out, out := []), free, n)
      ensures bufs.Keys == old(bufs).Keys
    {
      Joined(s);
      busy := busy + out;
      s', n := TakeAll(s.(busy := busy, out := []));
    }

    /** Lines 200-219 of src/core/ngx_buf.c */
    method TakeAll(ghost s: State) returns (ghost s': State, ghost n: nat)
      requires View([]) == s && Inv(s)
      modifies this`bufs, this`busy, this`free
      ensures View([]) == s' && Inv(s') && SameInput(s, s') && TakenBack(s, s', n) && bufs.Keys == s.bufs.Keys
      ensures busy != [] ==> busy[0] in s.bufs && Size(s.bufs[busy[0]]) != 0
      ensures FreeAgain(s, free, n) && HeadOwed()
    {
      s', n := s, 0;
      while busy != []
        invariant View([]) == s' && Inv(s') && SameInput(s, s') && TakenBack(s, s', n)
        decreases |busy|
      {
        BusyHead(s');
        var h := busy[0];
        if Size(bufs[h]) != 0 {
          break;
        }
        TakenNext(s, s', n);
        s', n := Recycle(s'), n + 1;
        TakeBack(h);
      }
      AllTaken(s, s', n);
      HeadIsOwed(s');
    }

    /** Lines 207-218 of src/core/ngx_buf.c */
    method TakeBack(h: Id)
      requires busy != [] && h == busy[0] && h in bufs
      modifies this`bufs, this`busy, this`free
      ensures View([]) == Recycle(old(View([])))
    {
      busy := busy[1..];
      if bufs[h].ours {
        bufs := bufs[h := bufs[h].(pos := 0, last := 0)];
        free := [h] + free;
      }
    }

    /** What a call that began at z and answers r has brought about. */
    ghost predicate Concludes(z: Start, r: Code)
      reads this
    {
      Settles() && Since(z) && Replies(r) && (GoesOn(r) ==> Ended())
    }

    /** ngx_output_chain */
    method Output(ids: seq<Id>, data: Store) returns (r: Code)
      requires Valid() && Submission(View([]), ids, data, limit)
      modifies this`bufs, this`input, this`busy, this`free, this`buf, this`made, this`directio, this`next, this`owed,
               this`calls, this`asked, this`sent, this`fits, this`strays
      ensures asked == old(asked) + Text(data, ids) && Settles()
      ensures Lasted(answer, old(calls), calls) && Replies(r)
      ensures Mute(old(bufs)) && Mute(data) ==> Mute(bufs) && strays == old(strays)
      ensures GoesOn(r) ==> Valid() && Drained()
      ensures GoesOn(r) && Greedy() && num >= 1 ==> input == [] && busy == [] && owed == map[]
    {
      ghost var t := Bring(ids, data);
      r := Process(ids, t);
    }

    /** The same with the caller's buffers in memory. */
    method Process(ids: seq<Id>, ghost t: State) returns (r: Code)
      requires Pending(ids, t)
      modifies this`bufs, this`input, this`busy, this`free, this`buf, this`made, this`directio, this`next, this`owed,
               this`calls, this`sent, this`fits, this`strays
      ensures Concludes(old(Now()), r)
    {
      if input == [] && busy == [] && |ids| == 1 {
        r := Single(ids, t);
      } else if input == [] && busy == [] && ids == [] {
        r := Straight(ids, t);
      } else {
        r := Pump(ids, t);
      }
    }

    /** Lines 60-68: one buffer that needs no copy goes to the filter at once. */
    method Single(ids: seq<Id>, ghost t: State) returns (r: Code)
      requires Pending(ids, t) && input == [] && busy == [] && |ids| == 1
      modifies this`bufs, this`input, this`busy, this`free, this`buf, this`made, this`directio, this`next, this`owed,
               this`calls, this`sent, this`fits, this`strays
      ensures Concludes(old(Now()), r)
    {
      var ok;
      ghost var t';
      ok, t' := AsIsAlone(ids, t);
      if ok {
        r := Straight(ids, t');
      } else {
        r := Pump(ids, t');
      }
    }

    /** All that was submitted was given to the filter, or is in the input or in the new buffers. */
    ghost predicate Pending(ids: seq<Id>, t: State)
      reads this
    {
      && View([]) == t && buf == 0 && Fresh() && made <= num && HeadOwed() && fits
      && Offers(t, ids, sent, asked, strays)
    }

    lemma Bringing(ids: seq<Id>, data: Store)
      requires Valid() && Submission(View([]), ids, data, limit)
      ensures Below(bufs + data, next)
      ensures Offers(View([]).(bufs := bufs + data), ids, sent, asked + Text(data, ids), strays)
      ensures Mute(bufs) && Mute(data) ==> Mute(bufs + data)
    {
      BroughtOffers(View([]), ids, data, limit, sent, asked, strays, next);
      if Mute(bufs) && Mute(data) { BroughtMute(bufs, data); }
    }

    /** The caller's buffers. */
    method Bring(ids: seq<Id>, data: Store) returns (ghost t: State)
      requires Valid() && Submission(View([]), ids, data, limit)
      modifies this`bufs, this`asked
      ensures Pending(ids, t) && asked == old(asked) + Text(data, ids)
      ensures Mute(old(bufs)) && Mute(data) ==> Mute(bufs)
    {
      ghost var s := View([]);
      Bringing(ids, data);
      bufs := bufs + data;
      asked := asked + Text(data, ids);
      t := s.(bufs := bufs);
    }

    method AsIsAlone(ids: seq<Id>, ghost t: State) returns (ok: bool, ghost t': State)
      requires Pending(ids, t) && |ids| == 1
      modifies this`bufs
      ensures Pending(ids, t') && t'.input == t.input && (ok ==> OutFits(bufs, ids)) && (Mute(t.bufs) ==> Mute(bufs))
    {
      var h := ids[0];
      OfferedBuf(t, ids, sent, asked, strays);
      var c;
      ok, c := AsIs(bufs[h]);
      MarkedOffers(t, ids, c, sent, asked, strays);
      bufs := bufs[h := c];
      t' := t.(bufs := bufs);
    }

    /** Lines 48-68: with nothing waiting, buffers that need no copy go to the filter at once. */
    method Straight(ids: seq<Id>, ghost t: State) returns (r: Code)
      requires Pending(ids, t) && input == [] && busy == [] && OutFits(bufs, ids)
      modifies this`bufs, this`owed, this`calls, this`sent, this`fits
      ensures Concludes(old(Now()), r)
    {
      Offered(t, ids);
      LastedMore(answer, calls, calls);
      ghost var u;
      r, u := CallFilter(ids, t.(out := ids));
      BelowKeys(t.bufs, bufs, next);
      GoneStraight(old(sent), t, ids, u, asked, strays);
    }

    /** Lines 72-215: the buffers join the input; fill, hand to the filter, take back, until nothing moves. */
    method Pump(ids: seq<Id>, ghost t: State) returns (r: Code)
      requires Pending(ids, t)
      modifies this`bufs, this`input, this`busy, this`free, this`buf, this`made, this`directio, this`next, this`owed,
               this`calls, this`sent, this`fits, this`strays
      ensures Concludes(old(Now()), r)
    {
      LinedSquared(t, ids, sent, asked, strays);
      input := input + ids;
      ghost var s, z := t.(input := input), Now();
      var first, done := true, false;
      r := Ok;
      while !done
        invariant !done ==> Standing(s) && Underway(z, first, r)
        invariant done ==> Concludes(z, r)
        decreases !done, if done then 0 else Measure(s), first
      {
        done, r, s := Turn(first, r, s, z);
        first := false;
      }
    }

    /** After the first call of the filter its answer is r and lets the loop go on. */
    ghost predicate Underway(z: Start, first: bool, r: Code)
      reads this
    {
      if first then calls == z.calls && (z.quiet ==> Mute(bufs) && strays == z.strays)
      else Since(z) && r == answer(calls - 1) && GoesOn(r) && (Greedy() ==> owed == map[])
    }

    ghost predicate Ended()
      reads this
    {
      Valid() && Drained() && (Greedy() ==> owed == map[])
    }

    /** Between two rounds nothing is out. */
    ghost predicate Standing(s: State)
      reads this
    {
      View([]) == s && Valid()
    }

    /** The output is ready to be given to the filter. */
    ghost predicate Primed(out: seq<Id>, t: State)
      reads this
    {
      && View(out) == t && Inv(t) && buf == 0 && Fresh() && made <= num
      && OutFits(bufs, out) && fits
      && Squared(sent + Text(bufs, out), bufs, input, asked, strays)
    }

    /** The loop of lines 90-195 and what it means for the balance. */
    method Fill(ghost s: State) returns (out: seq<Id>, ghost t: State)
      requires Standing(s)
      modifies this`bufs, this`input, this`free, this`buf, this`made, this`directio, this`next, this`strays
      ensures Mute(old(bufs)) ==> Mute(bufs) && strays == old(strays)
      ensures Primed(out, t) && HeadOwed() && (input == [] || (free == [] && (out != [] || made == num)))
      ensures Measure(t) <= Measure(s) && (out != [] ==> Measure(t) < Measure(s))
    {
      ghost var k;
      out, t, k := FillOut(s);
      Handing(sent, s, t, asked, k, old(strays));
    }

    /** Nothing moved in a round: lines 197-204. */
    lemma Rests(out: seq<Id>, t: State, z: Start, last: Code)
      requires Primed(out, t) && out == [] && HeadOwed() && Underway(z, false, last) &&
               (input == [] || (free == [] && made == num))
      ensures Concludes(z, if input != [] then Again else last)
    {
      assert sent + Text(bufs, out) == sent;
      Idle(t);
      if input != [] { AllBusy(t); }
    }

    /** One round of the loop. */
    method Turn(first: bool, last: Code, ghost s: State, ghost z: Start) returns (done: bool, r: Code, ghost s': State)
      requires Standing(s) && Underway(z, first, last)
      modifies this`bufs, this`input, this`busy, this`free, this`buf, this`made, this`directio, this`next, this`owed,
               this`calls, this`sent, this`fits, this`strays
      ensures done ==> Concludes(z, r)
      ensures !done ==> Standing(s') && Underway(z, false, r)
      ensures !done ==> Measure(s') < Measure(s) || (first && Measure(s') == Measure(s))
    {
      LastedMore(answer, z.calls, calls);
      var out;
      ghost var t;
      out, t := Fill(s);
      if out == [] && !first {
        Rests(out, t, z, last);
        return true, if input != [] then Again else last, t;
      }
      done, r, s' := HandOn(out, t, z);
    }

    /** Lines 206-214 */
    method HandOn(out: seq<Id>, ghost t: State, ghost z: Start) returns (done: bool, r: Code, ghost s': State)
      requires Primed(out, t) && Lasted(answer, z.calls, calls + 1)
      requires (z.quiet ==> Mute(bufs) && strays == z.strays)
      modifies this`bufs, this`busy, this`free, this`owed, this`calls, this`sent, this`fits
      ensures done ==> Concludes(z, r)
      ensures !done ==> Standing(s') && Underway(z, false, r) && Measure(s') == Measure(t)
    {
      r, s' := Deliver(out, t);
      SquaredSame(sent, t.bufs, bufs, input, asked, strays);
      done := r == Error || r == Done;
    }

    /** Lines 206-213: the output goes to the filter, which gives back what it is done with. */
    method Deliver(out: seq<Id>, ghost t: State) returns (rc: Code, ghost s: State)
      requires View(out) == t && Inv(t) && Fresh() && OutFits(bufs, out)
      modifies this`bufs, this`busy, this`free, this`owed, this`calls, this`sent, this`fits
      ensures sent == old(sent) + Text(t.bufs, out) && fits == old(fits) && calls == old(calls) + 1 &&
              rc == answer(old(calls))
      ensures Text(bufs, input) == Text(t.bufs, input) && (Greedy() ==> owed == map[])
      ensures Mute(t.bufs) ==> Mute(bufs)
      ensures GoesOn(rc) ==> View([]) == s && Inv(s) && Fresh() && HeadOwed()
    {
      rc, s := CallFilter(out, t);
      if rc != Error && rc != Done {
        ghost var n;
        s, n := UpdateChains(out, s);
        BelowKeys(t.bufs, bufs, next);
      }
    }
  }

  /** With nothing out, only the input is ahead. */
  lemma Idle(t: State)
    requires t.out == []
    ensures Ahead(t) == Text(t.bufs, t.input)
  {
    assert [] + Text(t.bufs, t.input) == Text(t.bufs, t.input);
  }

  ghost predicate Below(m: Store, n: Id) { forall i :: i in m ==> i < n }

  lemma BelowKeys(m: Store, m': Store, n: Id)
    requires Below(m, n) && m'.Keys == m.Keys
    ensures Below(m', n)
  {
    forall i | i in m' ensures i < n { assert i in m.Keys; }
  }

  /** What the filter was given and what is left in the input account for all that was submitted. */
  ghost predicate Squared(sent: seq<Token>, m: Store, input: seq<Id>, asked: seq<Token>, strays: nat) {
    Accounts(sent + Text(m, input), asked, strays)
  }

  /**
   What a balanced account means: no byte is lost, repeated or out of order between what was submitted and what
   was given to the filter and is left in the input, and nothing at all if and only if no sign strayed.
   */
  lemma Arrives(sent: seq<Token>, m: Store, input: seq<Id>, asked: seq<Token>, strays: nat)
    requires Squared(sent, m, input, asked, strays)
    ensures Payload(sent) + Payload(Text(m, input)) == Payload(asked)
    ensures strays == 0 <==> sent + Text(m, input) == asked
    ensures input == [] ==> Payload(sent) == Payload(asked) && (strays == 0 <==> sent == asked)
  {
    var x := sent + Text(m, input);
    SamePayload(x, asked);
    PayloadJoin(sent, Text(m, input));
    NoStrays(x, asked, strays);
    if input == [] {
      assert x == sent;
    }
  }

  lemma SquaredSame(sent: seq<Token>, m: Store, m': Store, input: seq<Id>, asked: seq<Token>, strays: nat)
    requires Squared(sent, m, input, asked, strays) && Text(m', input) == Text(m, input)
    ensures Squared(sent, m', input, asked, strays)
  {
  }

  /** The same with the new buffers behind the input. */
  ghost predicate Offers(t: State, ids: seq<Id>, sent: seq<Token>, asked: seq<Token>, strays: nat) {
    && Inv(t) && Ready(t, ids)
    && Accounts(sent + (Text(t.bufs, t.input) + Text(t.bufs, ids)), asked, strays)
  }

  /** With the submission both sides grow alike. */
  lemma Broadened(g: seq<Token>, x: seq<Token>, data: Store, ids: seq<Id>, asked: seq<Token>, strays: nat)
    requires Accounts(g + x, asked, strays)
    ensures Accounts(g + (x + Text(data, ids)), (asked + Text(data, ids)), strays)
  {
    var y := Text(data, ids);
    AccountsSame(y);
    AccountsJoin(g + x, asked, y, y, strays, 0);
    Assoc(g, x, y);
  }

  lemma BroughtOffers(s: State, ids: seq<Id>, data: Store, limit: Id, sent: seq<Token>, asked: seq<Token>, strays: nat,
                      next: Id)
    requires Inv(s) && Submission(s, ids, data, limit) && Below(s.bufs, next) && limit <= next
    requires Squared(sent, s.bufs, s.input, asked, strays)
    ensures Below(s.bufs + data, next)
    ensures Offers(s.(bufs := s.bufs + data), ids, sent, asked + Text(data, ids), strays)
  {
    Brought(s, ids, data, limit);
    Broadened(sent, Text(s.bufs, s.input), data, ids, asked, strays);
    forall i | i in data ensures i < next { assert Unused(s, data, i); }
  }

  lemma OfferedBuf(t: State, ids: seq<Id>, sent: seq<Token>, asked: seq<Token>, strays: nat)
    requires Offers(t, ids, sent, asked, strays) && |ids| == 1
    ensures ids[0] in t.bufs && BufOk(t.bufs[ids[0]])
  {
    assert ids[0] in ids;
  }

  lemma MarkedOffers(t: State, ids: seq<Id>, b: Buf, sent: seq<Token>, asked: seq<Token>, strays: nat)
    requires Offers(t, ids, sent, asked, strays) && |ids| == 1 && ids[0] in t.bufs
    requires Cleared(t.bufs[ids[0]], b)
    ensures Offers(t.(bufs := t.bufs[ids[0] := b]), ids, sent, asked, strays)
    ensures Mute(t.bufs) ==> Mute(t.bufs[ids[0] := b])
  {
    var h := ids[0];
    assert h in ids && Unused(t, t.bufs, h);
    SameTokens(t.bufs[h], b);
    OutsideMarked(t, ids, h, b);
    if Mute(t.bufs) { assert QuietAt(t.bufs, h); MuteUpdated(t.bufs, h, b); }
  }

  lemma LinedSquared(t: State, ids: seq<Id>, sent: seq<Token>, asked: seq<Token>, strays: nat)
    requires Offers(t, ids, sent, asked, strays)
    ensures Inv(t.(input := t.input + ids)) && Squared(sent, t.bufs, t.input + ids, asked, strays)
  {
    Lined(t, ids);
  }

  /** All there was went to the filter at once. */
  lemma GivenAll(sent: seq<Token>, t: State, ids: seq<Id>, u: State, asked: seq<Token>, strays: nat)
    requires Offers(t, ids, sent, asked, strays) && t.input == [] && u.input == []
    ensures Squared(sent + Text(t.bufs, ids), u.bufs, u.input, asked, strays)
    ensures var v := u.(out := []); Accounts((sent + Text(t.bufs, ids)) + Ahead(v), asked, strays)
  {
    var y := Text(t.bufs, ids);
    assert [] + y == y;
    assert sent + y + [] == sent + y;
    Idle(u.(out := []));
  }

  lemma GoneStraight(sent: seq<Token>, t: State, ids: seq<Id>, u: State, asked: seq<Token>, strays: nat)
    requires Offers(t, ids, sent, asked, strays) && t.input == [] && u.input == [] && Inv(u) && u.out == ids
    requires Ours(t.bufs, ids) == 0 && u.bufs.Keys == t.bufs.Keys
    requires forall i :: i in u.bufs ==> u.bufs[i].ours == t.bufs[i].ours
    ensures Inv(u.(out := [])) && Squared(sent + Text(t.bufs, ids), u.bufs, u.input, asked, strays)
    ensures var v := u.(out := []); Accounts((sent + Text(t.bufs, ids)) + Ahead(v), asked, strays)
  {
    OursSame(t.bufs, u.bufs, ids);
    LetGo(u);
    GivenAll(sent, t, ids, u, asked, strays);
  }

  /** What is ahead is moved on. */
  lemma KeptAhead(g: seq<Token>, s: State, t: State, asked: seq<Token>, k: nat, strays: nat)
    requires Kept(s, t, k) && s.out == [] && Accounts(g + Text(s.bufs, s.input), asked, strays)
    ensures Accounts(g + Ahead(t), asked, strays + k)
  {
    Idle(s);
    AccountsSame(g);
    AccountsJoin(g, g, Ahead(t), Ahead(s), 0, k);
    AccountsTrans(g + Ahead(t), g + Ahead(s), asked, k, strays);
  }

  /** The balance before and after the output is handed over. */
  lemma Handing(sent: seq<Token>, s: State, t: State, asked: seq<Token>, k: nat, strays: nat)
    requires Kept(s, t, k) && s.out == [] && Squared(sent, s.bufs, s.input, asked, strays)
    ensures Squared(sent + Text(t.bufs, t.out), t.bufs, t.input, asked, strays + k)
  {
    KeptAhead(sent, s, t, asked, k, strays);
    Assoc(sent, Text(t.bufs, t.out), Text(t.bufs, t.input));
  }

  /** If all buffers that may be made are made, and none is free or current, at least one is with the filter. */
  lemma AllBusy(t: State)
    requires Inv(t) && t.out == [] && t.free == [] && t.cur == []
    ensures t.made >= 1 ==> t.busy != []
  {
  }

  /** The first buffer left in front has bytes, so the filter has still to take them. */
  lemma HeadIsOwed(s': State)
    requires Inv(s') && (s'.busy != [] ==> s'.busy[0] in s'.bufs && Size(s'.bufs[s'.busy[0]]) != 0)
    ensures s'.busy != [] ==> s'.busy[0] in s'.owed
  {
    if s'.busy != [] { assert s'.busy[0] in s'.busy && Placed(s', s'.busy[0]); }
  }

  /** The first n bytes. */
  function Chunk(src: Buf, n: nat): (s: seq<Byte>)
    requires BufOk(src) && n <= Size(src)
    ensures s == Bytes(src)[..n]
  {
    if InMemory(src) then
      assert src.mem[src.pos..src.last][..n] == src.mem[src.pos..src.pos + n];
      src.mem[src.pos..src.pos + n]
    else
      assert src.file.content[src.filePos..src.fileLast][..n] == src.file.content[src.filePos..src.filePos + n];
      src.file.content[src.filePos..src.filePos + n]
  }

  /** The buffer takes what there is, or just enough for the next read to begin at the next sector. */
  ghost predicate EndsAligned(b: Buf, filePos: nat, bsize: nat, alignment: nat)
    requires alignment > 0
  {
    |b.mem| == bsize || (|b.mem| < bsize && filePos + |b.mem| == (filePos / alignment + 1) * alignment)
  }

  lemma NextSector(pos: nat, alignment: nat)
    requires alignment > 0
    ensures pos + (alignment - pos % alignment) == (pos / alignment + 1) * alignment
  {
  }

  /** ngx_create_temp_buf, ngx_calloc_buf */
  function NewBuf(n: nat, ours: bool, recycled: bool): (b: Buf)
    requires n > 0
    ensures BufOk(b) && Blank(b) && Quiet(b) && b.ours == ours && b.recycled == recycled && |b.mem| == n
  {
    Buf(true, false, false, seq(n, _ => 0), 0, 0, false, File([], false), 0, 0, false, false, false, false, recycled,
        ours)
  }

  /** The copied bytes: lines 482-485 and 576. */
  function WithBytes(dst: Buf, chunk: seq<Byte>): (d: Buf)
    requires BufOk(dst) && Blank(dst) && |chunk| <= |dst.mem|
    ensures BufOk(d) && d.temporary && d.pos == 0 && d.last == |chunk| && Bytes(d) == chunk && d.ours == dst.ours &&
            !d.inFile && !d.memory && !d.mmap
  {
    var mem := chunk + dst.mem[|chunk|..];
    assert mem[0..|chunk|] == chunk;
    dst.(mem := mem, last := |chunk|, inFile := false)
  }

  /** Where in the file they are: lines 487-503 and 578-588. */
  function WithFile(d: Buf, src: Buf, keepFile: bool): (e: Buf)
    requires BufOk(d) && d.temporary && !d.inFile && BufOk(src) && Size(d) <= Size(src)
    ensures BufOk(e) && e.temporary && Bytes(e) == Bytes(d) && e.ours == d.ours
    ensures e.memory == d.memory && e.mmap == d.mmap && (e.inFile <==> keepFile && src.inFile)
    ensures e.inFile ==> e.file == src.file && e.filePos == src.filePos
  {
    if src.inFile && keepFile then d.(inFile := true, file := src.file, filePos := src.filePos,
        fileLast := src.filePos + Size(d)) else d
  }

  /** The destination: lines 482-509 and 576-594. */
  function Loaded(dst: Buf, src: Buf, chunk: seq<Byte>, keepFile: bool): (d: Buf)
    requires BufOk(dst) && Blank(dst) && BufOk(src) && |chunk| <= Size(src) && |chunk| <= |dst.mem|
    ensures BufOk(d) && Bytes(d) == chunk && d.ours == dst.ours
    ensures d.temporary && !d.memory && !d.mmap && (d.inFile <==> keepFile && src.inFile)
    ensures d.inFile ==> d.file == src.file && d.filePos == src.filePos
  {
    var e := WithFile(WithBytes(dst, chunk), src, keepFile);
    if |chunk| == Size(src) then e.(flush := src.flush, lastBuf := src.lastBuf, lastInChain := src.lastInChain) else e
  }

  /** The work left in the input. */
  ghost function Measure(s: State): nat
  {
    |Text(s.bufs, s.input)| + |s.input|
  }

  /** The same buffer, or, if it is in memory, the same without its file. */
  predicate Cleared(b: Buf, c: Buf) { c == b || (InMemory(b) && c == b.(inFile := false)) }

  /** Clearing in_file of a buffer in memory does not touch what it stands for. */
  lemma SameTokens(b: Buf, c: Buf)
    requires BufOk(b) && Cleared(b, c)
    ensures BufOk(c) && Tokens(c) == Tokens(b) && c.ours == b.ours && Size(c) == Size(b) && (Special(b) ==> c == b)
    ensures Quiet(b) ==> Quiet(c)
  {
  }

  /** What b is after the first n bytes of src are gone. */
  ghost predicate Rest(src: Buf, n: nat, b: Buf)
    requires BufOk(src) && n <= Size(src)
  {
    && BufOk(b) && Bytes(b) == Bytes(src)[n..] && b.ours == src.ours && Special(b) == Special(src)
    && Signs(b) == Signs(src)
  }

  lemma AdvanceIs(src: Buf, n: nat)
    requires BufOk(src) && n <= Size(src)
    ensures Rest(src, n, Advance(src, n))
  {
    AdvanceBytes(src, n);
  }

  /** What d is after the first n bytes of src went to the empty dst. */
  ghost predicate Load(dst: Buf, src: Buf, n: nat, keepFile: bool, d: Buf)
    requires BufOk(src) && n <= Size(src)
  {
    && BufOk(d) && Bytes(d) == Bytes(src)[..n] && d.ours == dst.ours && d.temporary && !d.memory && !d.mmap
    && (d.inFile <==> keepFile && src.inFile) && (d.inFile ==> d.file == src.file && d.filePos == src.filePos)
    && (n == Size(src) && !Special(src) ==> Signs(d) == Signs(src)) && (n < Size(src) ==> Signs(d) == Signs(dst))
  }

  lemma LoadedIs(dst: Buf, src: Buf, n: nat, keepFile: bool)
    requires BufOk(dst) && Blank(dst) && BufOk(src) && n <= Size(src) && n <= |dst.mem|
    ensures Load(dst, src, n, keepFile, Loaded(dst, src, Chunk(src, n), keepFile))
  {
  }

  /** How many signs stray into a piece copied to dst that leaves b. */
  function Left(dst: Buf, b: Buf): nat { if Size(b) == 0 then 0 else |Signs(dst)| }

  /** A piece of src is in d now and the rest in b, with k stray signs; d is in memory, and in a file only if asked. */
  ghost predicate Pieced(src: Buf, dst: Buf, b: Buf, d: Buf, k: nat, keepFile: bool) {
    && BufOk(b) && BufOk(d) && b.ours == src.ours && d.ours == dst.ours && !Special(b)
    && Accounts(Tokens(d) + Tokens(b), Tokens(src), k) && |Tokens(b)| < |Tokens(src)|
    && (Quiet(src) && Quiet(dst) ==> Quiet(b) && Quiet(d) && k == 0)
    && d.temporary && !d.memory && !d.mmap && (d.inFile <==> keepFile && src.inFile)
    && (d.inFile ==> d.file == src.file && d.filePos == src.filePos)
  }

  /** A copied piece: nothing is lost, and a sign strays only into a piece that is not the last one. */
  lemma Piece(dst: Buf, src: Buf, n: nat, b: Buf, d: Buf, keepFile: bool)
    requires BufOk(src) && 0 < n <= Size(src) && Rest(src, n, b) && Load(dst, src, n, keepFile, d) && !Special(dst)
    ensures Pieced(src, dst, b, d, Left(dst, b), keepFile)
  {
    var x := Bytes(src);
    if n == Size(src) {
      assert x[..n] == x && Tokens(b) == [] && Tokens(d) + [] == Tokens(d);
      AccountsSame(Tokens(src));
    } else {
      OctetsCut(x, n);
      Interleaved(Octets(x[..n]), Signs(dst), Octets(x[n..]) + Signs(src));
      Assoc(Octets(x[..n]), Octets(x[n..]), Signs(src));
    }
  }

  /**
   A piece of src goes to dst: as much as there is room for, with what src says at its end if it is the
   last piece, and with what dst still said if not.
   */
  method CopyPiece(src: Buf, dst: Buf, keepFile: bool) returns (b: Buf, d: Buf)
    requires BufOk(src) && BufOk(dst) && Blank(dst) && Size(src) > 0
    ensures Pieced(src, dst, b, d, Left(dst, b), keepFile)
    ensures Size(d) == (if Size(src) < |dst.mem| then Size(src) else |dst.mem|)
  {
    var count := if Size(src) < |dst.mem| - dst.pos then Size(src) else |dst.mem| - dst.pos;
    AdvanceIs(src, count);
    LoadedIs(dst, src, count, keepFile);
    b, d := Advance(src, count), Loaded(dst, src, Chunk(src, count), keepFile);
    Piece(dst, src, count, b, d, keepFile);
  }

  /** The state after lines 165-194. */
  function After(t: State, b: Buf, d: Buf): State
    requires t.input != [] && |t.cur| == 1
  {
    if Size(b) == 0 then Drop(Copy(t, b, d)) else Copy(t, b, d)
  }

  lemma CopiedOver(t: State, b: Buf, d: Buf, k: nat)
    requires Inv(t) && Transfer(t, b, d, k) && !Special(b)
    ensures var s' := After(t, b, d); Inv(s') && Kept(t, s', k) && Measure(s') < Measure(t)
  {
    var u := Copy(t, b, d);
    InputHead(t);
    CurHead(t);
    Copied(t, b, d, k);
    if Size(b) == 0 {
      assert u.bufs[u.input[0]] == b && Tokens(b) == [];
      Dropped(u);
      KeptTrans(t, u, Drop(u), k, 0);
    }
  }

  lemma {:induction false} OctetsCut(x: seq<Byte>, n: nat)
    requires n <= |x|
    ensures Octets(x) == Octets(x[..n]) + Octets(x[n..])
    decreases n
  {
    if n == 0 {
      assert x[..n] == [] && x[n..] == x;
    } else {
      OctetsCut(x[1..], n - 1);
      assert x[1..][..n - 1] == x[..n][1..] && x[1..][n - 1..] == x[n..];
    }
  }

  lemma Interleaved(a: seq<Token>, m: seq<Token>, c: seq<Token>)
    requires |m| <= 1 && forall i :: 0 <= i < |m| ==> m[i].Sign?
    ensures Accounts(a + m + c, a + c, |m|)
  {
    AccountsSame(a);
    AccountsSame(c);
    assert Thins(m, []) by { assert m != [] ==> m[1..] == []; }
    AccountsJoin(a, a, m, [], 0, |m|);
    assert a + [] == a;
    AccountsJoin(a + m, a, c, c, |m|, 0);
  }

  function InMemoryBuf(x: seq<Byte>, flush: bool): Buf {
    Buf(false, true, false, x, 0, |x|, false, File([], false), 0, 0, flush, false, false, false, false, false)
  }

  /** A buffer that is flushed, used up and filled again carries its old flush into the middle of another buffer. */
  lemma StrayFlush(x: Byte, y: Byte, z: Byte)
    ensures var first, second := InMemoryBuf([x], true), InMemoryBuf([y, z], false);
      var used := Loaded(NewBuf(1, true, true), first, [x], false).(pos := 0, last := 0);
      && BufOk(first) && BufOk(second) && BufOk(used) && Blank(used)
      && var d, b := Loaded(used, second, [y], false), Advance(second, 1);
        && Tokens(d) + Tokens(b) == [Octet(y), Sign(true, false, false, false), Octet(z)]
        && Tokens(second) == [Octet(y), Octet(z)]
  {
    var second := InMemoryBuf([y, z], false);
    var used := Loaded(NewBuf(1, true, true), InMemoryBuf([x], true), [x], false).(pos := 0, last := 0);
    var d, b := Loaded(used, second, [y], false), Advance(second, 1);
    assert Bytes(second) == [y, z] && Bytes(b) == [z] && Bytes(d) == [y];
    assert [y][1..] == [] && [z][1..] == [] && [y, z][1..] == [z];
    assert Octets([y]) == [Octet(y)] && Octets([z]) == [Octet(z)] && Octets([y, z]) == [Octet(y), Octet(z)];
    assert Signs(b) == [] && Signs(second) == [] && Signs(d) == [Sign(true, false, false, false)];
  }

  /** A piece says just what its part of the buffer says if it is the last, or goes to a buffer that says nothing. */
  lemma PieceExact(dst: Buf, src: Buf, n: nat, keepFile: bool)
    requires BufOk(dst) && Blank(dst) && BufOk(src) && 0 < n <= Size(src) && n <= |dst.mem|
    ensures var d, b := Loaded(dst, src, Chunk(src, n), keepFile), Advance(src, n);
      Tokens(d) + Tokens(b) == Tokens(src) <==> n == Size(src) || Signs(dst) == []
  {
    var d, b := Loaded(dst, src, Chunk(src, n), keepFile), Advance(src, n);
    AdvanceIs(src, n);
    LoadedIs(dst, src, n, keepFile);
    Piece(dst, src, n, b, d, keepFile);
    NoStrays(Tokens(d) + Tokens(b), Tokens(src), Left(dst, b));
  }

  lemma FreeIds(s: State)
    requires Inv(s) && s.free != []
    ensures s.free[0] != 0
  {
    assert s.free[0] in s.free && s.free[0] in Everything(s);
    assert Placed(s, s.free[0]);
  }

  lemma Empty(s: State)
    requires s == State(map[], [], [], [], [], [], 0, map[])
    ensures Inv(s) && Ahead(s) == []
  {
    forall i ensures Once(s, i) && Placed(s, i) && Intact(s, i) {}
  }
}
