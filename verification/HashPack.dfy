/**
 The packed hash of src/core/ngx_hash.c, lines 12-49 and 248-452.  All elements of a
 bucket lie one after the other in memory, ended by a NULL value; the buckets lie one
 after the other in one block.  A write destroys every cell it overlaps, so what is read
 back at the end is what no write has touched.
 */
module HashPack {

  const PTR_SIZE := 8            // sizeof(void *)
  const SHORT := 0x1_0000       // u_short

  type Value = nat              // a pointer; 0 is NULL

  /** An element of the names array; a Hole is one whose key.data is NULL. */
  datatype Name = Hole(len: nat) | Name(key: string, hash: nat, value: Value)

  datatype Option = None | Some(value: Value)

  // ----- memory -----

  /** ngx_hash_elt_t, or the NULL value behind the last one. */
  datatype Cell = Elt(value: Value, name: string) | End

  type Memory = map<nat, Cell>

  function Align8(n: nat): (r: nat)
    ensures n <= r < n + PTR_SIZE
  {
    (n + PTR_SIZE - 1) / PTR_SIZE * PTR_SIZE
  }

  /** NGX_HASH_ELT_SIZE */
  function EltSize(len: nat): (r: nat)
    ensures r >= 2 * PTR_SIZE
  {
    PTR_SIZE + Align8(len + 2)
  }

  function Size(c: Cell): (r: nat)
    ensures r >= PTR_SIZE
  {
    if c.End? then PTR_SIZE else EltSize(|c.name|)
  }

  predicate Apart(a: nat, m: nat, b: nat, n: nat) { a + m <= b || b + n <= a }

  /** Writing a cell at address a. */
  function Store(mem: Memory, a: nat, c: Cell): Memory {
    (map x | x in mem && Apart(x, Size(mem[x]), a, Size(c)) :: mem[x])[a := c]
  }

  // ----- what belongs where -----

  function LowerChar(c: char): char { if 'A' <= c <= 'Z' then (c as int + 32) as char else c }

  /** ngx_strlow */
  function Lower(s: string): (r: string)
    ensures |r| == |s|
  {
    seq(|s|, i requires 0 <= i < |s| => LowerChar(s[i]))
  }

  /** key_hash % size */
  function Index(hash: nat, size: nat): (r: nat)
    requires size > 0
    ensures r < size
  {
    hash % size
  }

  predicate Goes(n: Name, size: nat, b: nat)
    requires size > 0
  {
    n.Name? && Index(n.hash, size) == b
  }

  /** The names of bucket b, in order. */
  function Chain(names: seq<Name>, size: nat, b: nat): seq<Name>
    requires size > 0
  {
    if names == [] then []
    else
      var n := names[|names| - 1];
      Chain(names[..|names| - 1], size, b) + if Goes(n, size, b) then [n] else []
  }

  function Bytes(list: seq<Name>): nat {
    if list == [] then 0
    else Bytes(list[..|list| - 1]) + if list[|list| - 1].Hole? then 0 else EltSize(|list[|list| - 1].key|)
  }

  lemma {:induction false} BytesAligned(list: seq<Name>)
    ensures Bytes(list) % PTR_SIZE == 0
  {
    if list != [] { BytesAligned(list[..|list| - 1]); }
  }

  function EltOf(n: Name): Cell { if n.Hole? then End else Elt(n.value, Lower(n.key)) }

  lemma {:induction false} ChainNames(names: seq<Name>, size: nat, b: nat)
    requires size > 0
    ensures forall n :: n in Chain(names, size, b) ==> n in names && Goes(n, size, b)
  {
    if names != [] { ChainNames(names[..|names| - 1], size, b); }
  }

  lemma {:induction false} BytesMono(list: seq<Name>, k: nat)
    requires k <= |list|
    ensures Bytes(list[..k]) <= Bytes(list)
    decreases |list| - k
  {
    if k < |list| {
      BytesMono(list, k + 1);
      assert list[..k + 1][..k] == list[..k];
    } else {
      assert list[..k] == list;
    }
  }

  /** Element k starts where the ones before it end, and ends inside the bucket. */
  lemma EltInside(list: seq<Name>, k: nat)
    requires k < |list| && list[k].Name?
    ensures Bytes(list[..k]) + EltSize(|list[k].key|) == Bytes(list[..k + 1]) <= Bytes(list)
  {
    assert list[..k + 1][..k] == list[..k];
    BytesMono(list, k + 1);
  }

  // ----- the sizing loop -----

  /** Every bucket has room for its elements. */
  ghost predicate Fitting(names: seq<Name>, size: nat, room: nat)
    requires size > 0
  {
    forall b {:trigger Chain(names, size, b)} :: 0 <= b < size ==> Bytes(Chain(names, size, b)) <= room
  }

  lemma NextBytes(names: seq<Name>, n: nat, size: nat, b: nat)
    requires n < |names| && size > 0
    ensures Bytes(Chain(names[..n + 1], size, b)) == Bytes(Chain(names[..n], size, b)) + if Goes(names[n], size,
              b) then EltSize(|names[n].key|) else 0
  {
    assert names[..n + 1][..n] == names[..n];
    var c := Chain(names[..n], size, b);
    if Goes(names[n], size, b) {
      assert (c + [names[n]])[..|c|] == c;
    } else {
      assert c + [] == c;
    }
  }

  lemma {:induction false} ChainPrefix(names: seq<Name>, n: nat, size: nat, b: nat)
    requires n <= |names| && size > 0
    ensures Bytes(Chain(names[..n], size, b)) <= Bytes(Chain(names, size, b))
    decreases |names| - n
  {
    if n < |names| {
      NextBytes(names, n, size, b);
      ChainPrefix(names, n + 1, size, b);
    } else {
      assert names[..n] == names;
    }
  }

  /** test holds, plus a constant, the bytes of each bucket for the first n names. */
  ghost predicate Sums(names: seq<Name>, n: nat, size: nat, test: seq<nat>, plus: nat)
    requires n <= |names| && size > 0
  {
    |test| == size && forall b :: 0 <= b < size ==> test[b] == plus + Bytes(Chain(names[..n], size, b))
  }

  lemma SumsStart(names: seq<Name>, size: nat, test: seq<nat>, plus: nat)
    requires size > 0 && |test| == size && forall b :: 0 <= b < size ==> test[b] == plus
    ensures Sums(names, 0, size, test, plus)
  {
    assert names[..0] == [];
  }

  lemma SumsStep(names: seq<Name>, n: nat, size: nat, test: seq<nat>, plus: nat)
    requires n < |names| && size > 0 && Sums(names, n, size, test, plus)
    ensures names[n].Hole? ==> Sums(names, n + 1, size, test, plus)
    ensures names[n].Name? ==> var key := Index(names[n].hash, size);
            Sums(names, n + 1, size, test[key := test[key] + EltSize(|names[n].key|)], plus)
  {
    forall b | 0 <= b < size
      ensures Bytes(Chain(names[..n + 1], size, b)) == Bytes(Chain(names[..n], size, b)) + if Goes(names[n], size,
                b) then EltSize(|names[n].key|) else 0
    {
      NextBytes(names, n, size, b);
    }
  }

  /** Each element alone fits into a bucket, and a full bucket with one more element into a u_short. */
  ghost predicate Small(names: seq<Name>, room: nat) {
    room < SHORT && forall n :: n in names && n.Name? ==> EltSize(|n.key|) <= room && room + EltSize(|n.key|) < SHORT
  }

  lemma FittingWhole(names: seq<Name>, size: nat, test: seq<nat>, room: nat)
    requires size > 0 && Sums(names, |names|, size, test, 0) && forall b :: 0 <= b < size ==> test[b] <= room
    ensures Fitting(names, size, room)
  {
    assert names[..|names|] == names;
  }

  lemma TooMuch(names: seq<Name>, n: nat, size: nat, test: seq<nat>, room: nat, key: nat)
    requires n <= |names| && size > 0 && Sums(names, n, size, test, 0) && key < size && test[key] > room
    ensures !Fitting(names, size, room)
  {
    ChainPrefix(names, n, size, key);
  }

  /** (u_short) (a + b) */
  function AddShort(a: nat, b: nat): (r: nat)
    ensures a + b < SHORT ==> r == a + b
  {
    (a + b) % SHORT
  }

  predicate Within(test: seq<nat>, room: nat) { forall b :: 0 <= b < |test| ==> test[b] <= room }

  /** The sums after one more name, which a u_short can hold. */
  lemma TryStep(names: seq<Name>, n: nat, size: nat, test: seq<nat>, room: nat)
    requires n < |names| && size > 0 && Small(names, room) && Sums(names, n, size, test, 0) && Within(test, room)
    ensures names[n].Hole? ==> Sums(names, n + 1, size, test, 0)
    ensures names[n].Name? ==>
      var key := Index(names[n].hash, size);
      var sum := AddShort(test[key], EltSize(|names[n].key|));
      Sums(names, n + 1, size, test[key := sum], 0) &&
        (if sum <= room then Within(test[key := sum], room) else !Fitting(names, size, room))
  {
    SumsStep(names, n, size, test, 0);
    if names[n].Name? {
      assert names[n] in names;
      var key := Index(names[n].hash, size);
      var sum := AddShort(test[key], EltSize(|names[n].key|));
      if sum > room { TooMuch(names, n + 1, size, test[key := sum], room, key); }
    }
  }

  /** Lines 289-306 from name n on, with the sums so far: the outcome of the test with its u_short sums. */
  predicate Accepts(names: seq<Name>, n: nat, size: nat, test: seq<nat>, room: nat)
    requires n <= |names| && size > 0 && |test| == size
    decreases |names| - n
  {
    if n == |names| then true
    else if names[n].Hole? then Accepts(names, n + 1, size, test, room)
    else
      var key := Index(names[n].hash, size);
      var sum := AddShort(test[key], EltSize(|names[n].key|));
      sum <= AddShort(room, 0) && Accepts(names, n + 1, size, test[key := sum], room)
  }

  function NoSums(size: nat): (test: seq<nat>)
    ensures |test| == size && forall b :: 0 <= b < size ==> test[b] == 0
  {
    seq(size, _ => 0)
  }

  /** The test of one size. */
  predicate SizeOk(names: seq<Name>, size: nat, room: nat)
    requires size > 0
  {
    Accepts(names, 0, size, NoSums(size), room)
  }

  lemma {:induction false} AcceptsFitting(names: seq<Name>, n: nat, size: nat, test: seq<nat>, room: nat)
    requires n <= |names| && size > 0 && Small(names, room) && Sums(names, n, size, test, 0) && Within(test, room)
    ensures Accepts(names, n, size, test, room) <==> Fitting(names, size, room)
    decreases |names| - n
  {
    if n == |names| {
      FittingWhole(names, size, test, room);
    } else {
      TryStep(names, n, size, test, room);
      if names[n].Hole? {
        AcceptsFitting(names, n + 1, size, test, room);
      } else {
        var key := Index(names[n].hash, size);
        var sum := AddShort(test[key], EltSize(|names[n].key|));
        if sum <= room { AcceptsFitting(names, n + 1, size, test[key := sum], room); }
      }
    }
  }

  /** While no sum can wrap, the test says whether the elements fit. */
  lemma SizeOkFitting(names: seq<Name>, size: nat, room: nat)
    requires size > 0 && Small(names, room)
    ensures SizeOk(names, size, room) <==> Fitting(names, size, room)
  {
    SumsStart(names, size, NoSums(size), 0);
    AcceptsFitting(names, 0, size, NoSums(size), room);
  }

  /** Lines 287-306: whether a table of this size fits; sums are u_short. */
  method TrySize(names: seq<Name>, size: nat, room: nat) returns (fits: bool)
    requires size > 0
    ensures fits <==> SizeOk(names, size, room)
    ensures Small(names, room) ==> (fits <==> Fitting(names, size, room))
  {
    if Small(names, room) { SizeOkFitting(names, size, room); }
    var test: seq<nat> := NoSums(size);
    var n := 0;
    while n < |names|
      invariant 0 <= n <= |names| && |test| == size
      invariant SizeOk(names, size, room) <==> Accepts(names, n, size, test, room)
    {
      if names[n].Name? {
        var key := Index(names[n].hash, size);
        test := test[key := AddShort(test[key], EltSize(|names[n].key|))];
        if test[key] > AddShort(room, 0) {
          return false;
        }
      }
      n := n + 1;
    }
    return true;
  }

  /** The test says for every list of names that passes line 261, and every size, whether the elements fit. */
  ghost predicate TestIsRight(room: nat) {
    forall names: seq<Name>, size: nat {:trigger SizeOk(names, size, room)} ::
      size > 0 && !SomeTooLong(names, room + PTR_SIZE) ==> (SizeOk(names, size, room) <==> Fitting(names, size, room))
  }

  /** Two names whose elements have half the range each: their sum wraps to 0 and is accepted. */
  lemma WrapAccepted(x: string, y: string, room: nat)
    requires |x| == |y| == 32752 && SHORT / 2 <= room < SHORT
    ensures var names := [Name(x, 0, 1), Name(y, 0, 2)];
      !SomeTooLong(names, room + PTR_SIZE) && SizeOk(names, 1, room) && !Fitting(names, 1, room)
  {
    var a, b := Name(x, 0, 1), Name(y, 0, 2);
    var names := [a, b];
    assert EltSize(32752) == 32768 && AddShort(0, 32768) == 32768 && AddShort(32768, 32768) == 0;
    assert Index(0, 1) == 0 && AddShort(room, 0) == room;
    var one := NoSums(1)[0 := 32768];
    assert Accepts(names, 2, 1, one[0 := 0], room);
    assert Accepts(names, 1, 1, one, room);
    TwoInBucket(a, b);
  }

  lemma TwoInBucket(a: Name, b: Name)
    requires Goes(a, 1, 0) && Goes(b, 1, 0)
    ensures Bytes(Chain([a, b], 1, 0)) == EltSize(|a.key|) + EltSize(|b.key|)
  {
    var names := [a, b];
    assert names[..0] == [] && names[..2] == names;
    NextBytes(names, 0, 1, 0);
    NextBytes(names, 1, 1, 0);
  }

  /** The u_short sums are right for all tables exactly if a bucket has less than half the range. */
  lemma ShortSumsExact(room: nat)
    requires room < SHORT
    ensures TestIsRight(room) <==> room < SHORT / 2
  {
    if room < SHORT / 2 {
      forall names: seq<Name>, size: nat | size > 0 && !SomeTooLong(names, room + PTR_SIZE)
        ensures SizeOk(names, size, room) <==> Fitting(names, size, room)
      {
        forall n | n in names && n.Name? ensures EltSize(|n.key|) <= room { assert !TooLong(n, room + PTR_SIZE); }
        SizeOkFitting(names, size, room);
      }
    } else {
      var x: string := seq(32752, _ => 'a');
      WrapAccepted(x, x, room);
    }
  }

  /** Line 261: a name is too long for a bucket. */
  predicate TooLong(n: Name, bucketSize: nat) { bucketSize < EltSize(if n.Hole? then n.len else |n.key|) + PTR_SIZE }

  ghost predicate SomeTooLong(names: seq<Name>, bucketSize: nat) { exists n :: n in names && TooLong(n, bucketSize) }

  /** Lines 276-283: the size to begin with. */
  function Start(count: nat, maxSize: nat, room: nat): (r: nat)
    requires room >= 2 * PTR_SIZE
    ensures r > 0
  {
    if maxSize > 10000 && count > 0 && maxSize / count < 100 then maxSize - 1000
    else
      var start := count / (room / (2 * PTR_SIZE));
      if start == 0 then 1 else start
  }

  /** No size from lo up to hi, without hi, fits. */
  ghost predicate NoneFits(names: seq<Name>, lo: nat, hi: nat, room: nat) {
    forall k: nat {:trigger Fits(names, k, room)} :: lo <= k < hi ==> !Fits(names, k, room)
  }

  ghost predicate Fits(names: seq<Name>, size: nat, room: nat) { size > 0 && Fitting(names, size, room) }

  /** The outcome of the sizing: 0 if a name is too long or no size fits, else the first size that does. */
  ghost predicate IsSize(names: seq<Name>, maxSize: nat, bucketSize: nat, size: nat) {
    if SomeTooLong(names, bucketSize) then size == 0
    else
      && bucketSize >= 3 * PTR_SIZE
      && var room := bucketSize - PTR_SIZE;
      var start := Start(|names|, maxSize, room);
      if size == 0 then NoneFits(names, start, maxSize + 1, room)
      else start <= size <= maxSize && Fits(names, size, room) && NoneFits(names, start, size, room)
  }

  /** The same with the test of the source in place of fitting. */
  ghost predicate Accepted(names: seq<Name>, size: nat, room: nat) { size > 0 && SizeOk(names, size, room) }

  ghost predicate NoneAccepted(names: seq<Name>, lo: nat, hi: nat, room: nat) {
    forall k: nat {:trigger Accepted(names, k, room)} :: lo <= k < hi ==> !Accepted(names, k, room)
  }

  /** The first size that the test accepts, or 0. */
  ghost predicate IsPicked(names: seq<Name>, maxSize: nat, bucketSize: nat, size: nat) {
    if SomeTooLong(names, bucketSize) then size == 0
    else
      && bucketSize >= 3 * PTR_SIZE
      && var room := bucketSize - PTR_SIZE;
      var start := Start(|names|, maxSize, room);
      if size == 0 then NoneAccepted(names, start, maxSize + 1, room)
      else start <= size <= maxSize && Accepted(names, size, room) && NoneAccepted(names, start, size, room)
  }

  /** While no sum can wrap, the size that the test accepts first is the first that fits. */
  lemma PickedFits(names: seq<Name>, maxSize: nat, bucketSize: nat, size: nat)
    requires IsPicked(names, maxSize, bucketSize, size) && NoWrap(names, bucketSize)
    ensures IsSize(names, maxSize, bucketSize, size)
    ensures size > 0 ==> bucketSize >= PTR_SIZE && Small(names, bucketSize - PTR_SIZE)
  {
    if !SomeTooLong(names, bucketSize) {
      var room := bucketSize - PTR_SIZE;
      forall n | n in names && n.Name? ensures EltSize(|n.key|) <= room { assert !TooLong(n, bucketSize); }
      forall k: nat ensures Accepted(names, k, room) <==> Fits(names, k, room) {
        if k > 0 { SizeOkFitting(names, k, room); }
      }
    }
  }

  /** No sum of the test can wrap: a full bucket and one more of the elements that pass line 261 fit into a u_short. */
  ghost predicate NoWrap(names: seq<Name>, bucketSize: nat) {
    && bucketSize < SHORT + PTR_SIZE
    && forall n :: n in names && n.Name? && !TooLong(n, bucketSize) ==>
         bucketSize - PTR_SIZE + EltSize(|n.key|) < SHORT
  }

  /** Lines 260-269: each element fits into a bucket. */
  method CheckNames(names: seq<Name>, bucketSize: nat) returns (ok: bool)
    requires names == [] ==> bucketSize >= 3 * PTR_SIZE
    ensures ok <==> !SomeTooLong(names, bucketSize)
    ensures ok ==> bucketSize >= 3 * PTR_SIZE
  {
    for n := 0 to |names|
      invariant n > 0 ==> bucketSize >= 3 * PTR_SIZE
      invariant forall i :: 0 <= i < n ==> !TooLong(names[i], bucketSize)
    {
      if TooLong(names[n], bucketSize) {
        assert names[n] in names;
        return false;
      }
    }
    return true;
  }

  /** Lines 260-313: the first size that passes the test.  Without one the source goes on with a warning. */
  method FindSize(names: seq<Name>, maxSize: nat, bucketSize: nat) returns (size: nat)
    requires names == [] ==> bucketSize >= 3 * PTR_SIZE
    ensures IsPicked(names, maxSize, bucketSize, size)
    ensures NoWrap(names, bucketSize) ==> IsSize(names, maxSize, bucketSize, size)
  {
    var ok := CheckNames(names, bucketSize);
    if !ok {
      return 0;
    }
    var room := bucketSize - PTR_SIZE;
    var start := StartSize(|names|, maxSize, room);
    size := FirstAccepted(names, start, maxSize, room);
    if NoWrap(names, bucketSize) { PickedFits(names, maxSize, bucketSize, size); }
  }

  /** Lines 276-283 */
  method StartSize(count: nat, maxSize: nat, room: nat) returns (start: nat)
    requires room >= 2 * PTR_SIZE
    ensures start == Start(count, maxSize, room)
  {
    start := count / (room / (2 * PTR_SIZE));
    start := if start == 0 then 1 else start;
    if maxSize > 10000 && count > 0 && maxSize / count < 100 {
      start := maxSize - 1000;
    }
  }

  /** Lines 285-313 */
  method FirstAccepted(names: seq<Name>, start: nat, maxSize: nat, room: nat) returns (size: nat)
    requires start > 0
    ensures if size == 0 then NoneAccepted(names, start, maxSize + 1, room)
            else start <= size <= maxSize && Accepted(names, size, room) && NoneAccepted(names, start, size, room)
  {
    size := start;
    while size <= maxSize
      invariant size >= start && (size <= maxSize + 1 || size == start) && NoneAccepted(names, start, size, room)
    {
      var fits := TrySize(names, size, room);
      if fits {
        assert Accepted(names, size, room);
        return;
      }
      size := size + 1;
    }
    return 0;
  }

  // ----- where the buckets lie -----

  /** ngx_align */
  function AlignTo(n: nat, a: nat): (r: nat)
    requires a > 0
    ensures n <= r < n + a
  {
    n + (a - 1 - (n + a - 1) % a)
  }

  /** The room of a bucket; test[b] == sizeof(void *) marks an empty one. */
  function Room(test: seq<nat>, b: nat): nat
    requires b < |test|
  {
    if test[b] == PTR_SIZE then 0 else test[b]
  }

  /** Where bucket b starts. */
  function Base(test: seq<nat>, b: nat): nat
    requires b <= |test|
  {
    if b == 0 then 0 else Base(test, b - 1) + Room(test, b - 1)
  }

  lemma {:induction false} BaseMono(test: seq<nat>, i: nat, j: nat)
    requires i < j <= |test|
    ensures Base(test, i) + Room(test, i) <= Base(test, j)
    decreases j
  {
    if i + 1 < j { BaseMono(test, i, j - 1); }
  }

  /** A bucket with elements has room for them and the terminator. */
  ghost predicate Roomy(names: seq<Name>, size: nat, test: seq<nat>)
    requires size > 0
  {
    |test| == size && forall b {:trigger Chain(names, size, b)} :: 0 <= b < size ==>
      var n := Bytes(Chain(names, size, b));
      if n == 0 then test[b] == PTR_SIZE else test[b] >= n + PTR_SIZE
  }

  ghost predicate Aligned(test: seq<nat>) { forall b :: 0 <= b < |test| ==> test[b] % PTR_SIZE == 0 }

  lemma AlignTo8(n: nat, a: nat)
    requires a > 0 && a % PTR_SIZE == 0
    ensures AlignTo(n, a) % PTR_SIZE == 0
  {
    var q, k := (n + a - 1) / a, a / PTR_SIZE;
    assert n + a - 1 == a * q + (n + a - 1) % a;
    assert AlignTo(n, a) == a * q;
    assert a * q == PTR_SIZE * (k * q) by { assert a == PTR_SIZE * k; }
  }

  /** The aligned number is the least multiple that is large enough. */
  lemma AlignIs(n: nat, a: nat)
    requires a > 0
    ensures AlignTo(n, a) == a * ((n + a - 1) / a)
  {
    assert n + a - 1 == a * ((n + a - 1) / a) + (n + a - 1) % a;
  }

  lemma AlignMono(n: nat, m: nat, a: nat)
    requires a > 0 && n <= m
    ensures AlignTo(n, a) <= AlignTo(m, a)
  {
    AlignIs(n, a);
    AlignIs(m, a);
    DivMono(n + a - 1, m + a - 1, a);
    MulMono(a, (n + a - 1) / a, (m + a - 1) / a);
  }

  lemma MulMono(a: nat, q: nat, k: nat)
    requires q <= k
    ensures a * q <= a * k
  {
    assert a * k == a * q + a * (k - q);
  }

  lemma DivMono(x: nat, y: nat, a: nat)
    requires a > 0 && x <= y
    ensures x / a <= y / a
  {
    var q, k := x / a, y / a;
    assert x == a * q + x % a && y == a * k + y % a;
    if q > k {
      MulMono(a, k + 1, q);
      assert false;
    }
  }

  /** Line 344: no width up to the bucket size is lost in a u_short exactly if the rounded bucket size is none. */
  lemma WidthExact(bucketSize: nat, a: nat)
    requires 0 < a <= SHORT
    ensures (forall n: nat {:trigger AlignTo(n, a)} :: n <= bucketSize ==> AddShort(AlignTo(n, a), 0) >= n) <==>
      AlignTo(bucketSize, a) < SHORT
  {
    if AlignTo(bucketSize, a) < SHORT {
      forall n: nat | n <= bucketSize ensures AddShort(AlignTo(n, a), 0) >= n { AlignMono(n, bucketSize, a); }
    } else if bucketSize < SHORT {
      assert AddShort(AlignTo(bucketSize, a), 0) == AlignTo(bucketSize, a) - SHORT;
    } else {
      assert AddShort(AlignTo(bucketSize, a), 0) < bucketSize;
    }
  }

  lemma {:induction false} BaseAligned(test: seq<nat>, b: nat)
    requires Aligned(test) && b <= |test|
    ensures Base(test, b) % PTR_SIZE == 0
  {
    if b > 0 { BaseAligned(test, b - 1); }
  }

  /** Lines 324-335: a terminator and the elements, bucket by bucket. */
  method BucketSums(names: seq<Name>, size: nat, room: nat) returns (test: seq<nat>)
    requires size > 0 && Small(names, room) && Fitting(names, size, room)
    ensures Sums(names, |names|, size, test, PTR_SIZE)
  {
    test := seq(size, _ => PTR_SIZE);
    SumsStart(names, size, test, PTR_SIZE);
    for n := 0 to |names|
      invariant Sums(names, n, size, test, PTR_SIZE)
    {
      SumsStep(names, n, size, test, PTR_SIZE);
      if names[n].Name? {
        var key := Index(names[n].hash, size);
        SumFits(names, n, size, room, test, key);
        test := test[key := AddShort(test[key], EltSize(|names[n].key|))];
      }
    }
  }

  /** Lines 324-347: the room of each bucket, rounded up to a cache line, and the sum. */
  method Widths(names: seq<Name>, size: nat, room: nat, cacheline: nat) returns (test: seq<nat>, len: nat)
    requires size > 0 && Small(names, room) && Fitting(names, size, room)
    requires cacheline > 0 && cacheline % PTR_SIZE == 0 && AlignTo(room + PTR_SIZE, cacheline) < SHORT
    ensures Roomy(names, size, test) && Aligned(test) && len == Base(test, size) && forall b :: 0 <= b < size ==>
            test[b] < SHORT
  {
    test := BucketSums(names, size, room);
    ghost var sums := test;
    len := 0;
    for i := 0 to size
      invariant |test| == size && len == Base(test, i)
      invariant forall b :: i <= b < size ==> test[b] == sums[b]
      invariant forall b :: 0 <= b < i ==>
                test[b] < SHORT && test[b] % PTR_SIZE == 0 &&
                (if sums[b] == PTR_SIZE then test[b] == PTR_SIZE else test[b] >= sums[b])
    {
      if test[i] != PTR_SIZE {
        ghost var before := test;
        WholeSum(names, size, room, sums, i);
        AlignMono(test[i], room + PTR_SIZE, cacheline);
        AlignTo8(test[i], cacheline);
        test := test[i := AddShort(AlignTo(test[i], cacheline), 0)];
        BaseSame(before, test, i);
        len := len + test[i];
      }
    }
    assert names[..|names|] == names;
  }

  lemma {:induction false} BaseSame(s: seq<nat>, t: seq<nat>, i: nat)
    requires |s| == |t| && i <= |s| && forall b :: 0 <= b < i ==> s[b] == t[b]
    ensures Base(s, i) == Base(t, i)
  {
    if i > 0 { BaseSame(s, t, i - 1); }
  }

  lemma SumFits(names: seq<Name>, n: nat, size: nat, room: nat, test: seq<nat>, key: nat)
    requires n < |names| && size > 0 && room + PTR_SIZE < SHORT && Fitting(names, size, room)
    requires Sums(names, n, size, test, PTR_SIZE)
    requires names[n].Name? && key == Index(names[n].hash, size)
    ensures test[key] + EltSize(|names[n].key|) < SHORT
  {
    NextBytes(names, n, size, key);
    ChainPrefix(names, n + 1, size, key);
  }

  lemma WholeSum(names: seq<Name>, size: nat, room: nat, test: seq<nat>, b: nat)
    requires size > 0 && Fitting(names, size, room) && Sums(names, |names|, size, test, PTR_SIZE) && b < size
    ensures test[b] <= room + PTR_SIZE
  {
    assert names[..|names|] == names;
  }

  // ----- filling -----

  /** Element k of the bucket is in memory where it belongs. */
  ghost predicate HasElt(mem: Memory, base: nat, list: seq<Name>, k: nat) {
    k < |list| ==> var a := base + Bytes(list[..k]); a in mem && mem[a] == EltOf(list[k])
  }

  ghost predicate HasElts(mem: Memory, base: nat, list: seq<Name>) {
    forall k: nat {:trigger HasElt(mem, base, list, k)} :: HasElt(mem, base, list, k)
  }

  ghost predicate Filled(mem: Memory, test: seq<nat>, names: seq<Name>, size: nat)
    requires size > 0 && |test| == size
  {
    forall b {:trigger Chain(names, size, b)} :: 0 <= b < size ==> HasElts(mem, Base(test, b), Chain(names, size, b))
  }

  ghost predicate Inside(mem: Memory, len: nat) { forall a :: a in mem ==> a + Size(mem[a]) <= len }

  /** A write behind the elements of a bucket leaves them. */
  lemma EltsStay(mem: Memory, base: nat, list: seq<Name>, a: nat, c: Cell)
    requires HasElts(mem, base, list) && (forall n :: n in list ==> n.Name?) && Apart(base, Bytes(list), a, Size(c))
    ensures HasElts(Store(mem, a, c), base, list)
  {
    forall k: nat ensures HasElt(Store(mem, a, c), base, list, k) {
      assert HasElt(mem, base, list, k);
      if k < |list| {
        assert list[k] in list;
        EltInside(list, k);
      }
    }
  }

  /** A write just behind them adds one. */
  lemma EltsGrow(mem: Memory, base: nat, list: seq<Name>, n: Name)
    requires HasElts(mem, base, list) && base + Bytes(list) in mem && mem[base + Bytes(list)] == EltOf(n)
    ensures HasElts(mem, base, list + [n])
  {
    var more := list + [n];
    forall k: nat ensures HasElt(mem, base, more, k) {
      assert HasElt(mem, base, list, k);
      if k < |list| { assert more[..k] == list[..k]; }
      if k == |list| { assert more[..k] == list; }
    }
  }

  /** The part of bucket b used so far does not meet a write into bucket key. */
  lemma BucketsApart(names: seq<Name>, size: nat, test: seq<nat>, b: nat, key: nat, m: nat, off: nat, n: nat)
    requires size > 0 && Roomy(names, size, test) && b < size && key < size && b != key
    requires m <= Room(test, b) && off + n <= Room(test, key)
    ensures Apart(Base(test, b), m, Base(test, key) + off, n)
  {
    if b < key { BaseMono(test, b, key); } else { BaseMono(test, key, b); }
  }

  lemma FillSkip(mem: Memory, names: seq<Name>, n: nat, size: nat, test: seq<nat>)
    requires n < |names| && size > 0 && |test| == size && Filled(mem, test, names[..n], size) && names[n].Hole?
    ensures Filled(mem, test, names[..n + 1], size)
  {
    assert names[..n + 1][..n] == names[..n];
    forall b | 0 <= b < size ensures HasElts(mem, Base(test, b), Chain(names[..n + 1], size, b)) {
      assert Chain(names[..n], size, b) + [] == Chain(names[..n], size, b);
    }
  }

  lemma ChainOther(names: seq<Name>, n: nat, size: nat, key: nat, b: nat)
    requires n < |names| && size > 0 && Goes(names[n], size, key) && b != key
    ensures Chain(names[..n + 1], size, b) == Chain(names[..n], size, b)
  {
    assert names[..n + 1][..n] == names[..n];
    assert Chain(names[..n], size, b) + [] == Chain(names[..n], size, b);
  }

  lemma OtherApart(names: seq<Name>, n: nat, size: nat, test: seq<nat>, key: nat, b: nat)
    requires n < |names| && size > 0 && Roomy(names, size, test) && Goes(names[n], size, key) && key < size &&
             b < size && b != key
    ensures Apart(Base(test, b), Bytes(Chain(names[..n], size, b)),
                Base(test, key) + Bytes(Chain(names[..n], size, key)), Size(EltOf(names[n])))
  {
    WriteFits(names, n, size, test, key);
    ChainRoom(names, n, size, test, b);
    BucketsApart(names, size, test, b, key, Bytes(Chain(names[..n], size, b)), Bytes(Chain(names[..n], size, key)),
        Size(EltOf(names[n])));
  }

  lemma FillOther(mem: Memory, mem': Memory, names: seq<Name>, n: nat, size: nat, test: seq<nat>, key: nat, b: nat)
    requires n < |names| && size > 0 && Roomy(names, size, test) && Goes(names[n], size, key) && key < size &&
             b < size && b != key
    requires HasElts(mem, Base(test, b), Chain(names[..n], size, b))
    requires mem' == Store(mem, Base(test, key) + Bytes(Chain(names[..n], size, key)), EltOf(names[n]))
    ensures HasElts(mem', Base(test, b), Chain(names[..n + 1], size, b))
  {
    var other, a := Chain(names[..n], size, b), Base(test, key) + Bytes(Chain(names[..n], size, key));
    assert Chain(names[..n + 1], size, b) == other by { ChainOther(names, n, size, key, b); }
    assert forall e :: e in other ==> e.Name? by { ChainNames(names[..n], size, b); }
    OtherApart(names, n, size, test, key, b);
    EltsStay(mem, Base(test, b), other, a, EltOf(names[n]));
  }

  lemma FillSame(mem: Memory, mem': Memory, names: seq<Name>, n: nat, size: nat, base: nat, key: nat)
    requires n < |names| && size > 0 && Goes(names[n], size, key) && HasElts(mem, base, Chain(names[..n], size, key))
    requires mem' == Store(mem, base + Bytes(Chain(names[..n], size, key)), EltOf(names[n]))
    ensures HasElts(mem', base, Chain(names[..n + 1], size, key))
  {
    assert names[..n + 1][..n] == names[..n];
    var list := Chain(names[..n], size, key);
    ChainNames(names[..n], size, key);
    EltsStay(mem, base, list, base + Bytes(list), EltOf(names[n]));
    EltsGrow(mem', base, list, names[n]);
  }

  lemma FillStep(mem: Memory, mem': Memory, names: seq<Name>, n: nat, size: nat, test: seq<nat>, key: nat)
    requires n < |names| && size > 0 && Roomy(names, size, test) && Filled(mem, test, names[..n], size) &&
             Inside(mem, Base(test, size))
    requires Goes(names[n], size, key) && key < size &&
             mem' == Store(mem, Base(test, key) + Bytes(Chain(names[..n], size, key)), EltOf(names[n]))
    ensures Filled(mem', test, names[..n + 1], size) && Inside(mem', Base(test, size))
  {
    WriteFits(names, n, size, test, key);
    BaseMono(test, key, size);
    InsideStore(mem, Base(test, key) + Bytes(Chain(names[..n], size, key)), EltOf(names[n]), Base(test, size));
    forall b | 0 <= b < size ensures HasElts(mem', Base(test, b), Chain(names[..n + 1], size, b)) {
      if b == key { FillSame(mem, mem', names, n, size, Base(test, key), key); }
      else { FillOther(mem, mem', names, n, size, test, key, b); }
    }
  }

  lemma ChainRoom(names: seq<Name>, n: nat, size: nat, test: seq<nat>, b: nat)
    requires n <= |names| && size > 0 && Roomy(names, size, test) && b < size
    ensures Bytes(Chain(names[..n], size, b)) <= Room(test, b)
  {
    ChainPrefix(names, n, size, b);
  }

  lemma WriteFits(names: seq<Name>, n: nat, size: nat, test: seq<nat>, key: nat)
    requires n < |names| && size > 0 && Roomy(names, size, test) && Goes(names[n], size, key) && key < size
    ensures Bytes(Chain(names[..n], size, key)) + Size(EltOf(names[n])) <= Room(test, key)
  {
    NextBytes(names, n, size, key);
    ChainRoom(names, n + 1, size, test, key);
  }

  datatype Bucket = Null | At(a: nat)

  /** ngx_hash_t with the memory its buckets point into. */
  datatype Hash = Hash(size: nat, buckets: seq<Bucket>, mem: Memory)

  ghost predicate Pointing(buckets: seq<Bucket>, test: seq<nat>, size: nat)
    requires |test| == size
  {
    |buckets| == size && forall b :: 0 <= b < size ==>
      buckets[b] == if test[b] == PTR_SIZE then Null else At(Base(test, b))
  }

  /** Lines 374-384 */
  method Place(test: seq<nat>) returns (buckets: seq<Bucket>)
    ensures Pointing(buckets, test, |test|)
  {
    buckets := [];
    var elts := 0;
    for i := 0 to |test|
      invariant |buckets| == i && elts == Base(test, i)
      invariant forall b :: 0 <= b < i ==> buckets[b] == if test[b] == PTR_SIZE then Null else At(Base(test, b))
    {
      if test[i] == PTR_SIZE {
        buckets := buckets + [Null];
      } else {
        buckets := buckets + [At(elts)];
        elts := elts + test[i];
      }
    }
  }

  /** Lines 386-404: each element goes behind the ones before it in its bucket. */
  method Fill(names: seq<Name>, size: nat, buckets: seq<Bucket>, ghost widths: seq<nat>)
      returns (mem: Memory, test: seq<nat>)
    requires size > 0 && Roomy(names, size, widths) && Pointing(buckets, widths, size) && forall b :: 0 <= b < size ==>
             widths[b] < SHORT
    ensures Filled(mem, widths, names, size) && Inside(mem, Base(widths, size)) && Sums(names, |names|, size, test, 0)
  {
    mem := map[];
    test := seq(size, _ => 0);
    SumsStart(names, size, test, 0);
    FillStart(names, size, widths);
    for n := 0 to |names|
      invariant Sums(names, n, size, test, 0) && Filled(mem, widths, names[..n], size) &&
                Inside(mem, Base(widths, size))
    {
      SumsStep(names, n, size, test, 0);
      if names[n].Hole? {
        FillSkip(mem, names, n, size, widths);
      } else {
        var key := Index(names[n].hash, size);
        FillFacts(names, n, size, widths, buckets, test);
        ghost var before := mem;
        mem := Store(mem, buckets[key].a + test[key], Elt(names[n].value, Lower(names[n].key)));
        FillStep(before, mem, names, n, size, widths, key);
        test := test[key := AddShort(test[key], EltSize(|names[n].key|))];
      }
    }
    assert names[..|names|] == names;
  }

  lemma FillFacts(names: seq<Name>, n: nat, size: nat, widths: seq<nat>, buckets: seq<Bucket>, test: seq<nat>)
    requires size > 0 && Roomy(names, size, widths) && Pointing(buckets, widths, size) && forall b :: 0 <= b < size ==>
             widths[b] < SHORT
    requires n < |names| && names[n].Name? && Sums(names, n, size, test, 0)
    ensures var key := Index(names[n].hash, size);
      && buckets[key].At? && buckets[key].a + test[key] == Base(widths, key) + Bytes(Chain(names[..n], size, key))
      && AddShort(test[key], EltSize(|names[n].key|)) == test[key] + EltSize(|names[n].key|)
  {
    WriteFits(names, n, size, widths, Index(names[n].hash, size));
  }

  lemma FillStart(names: seq<Name>, size: nat, widths: seq<nat>)
    requires size > 0 && |widths| == size
    ensures Filled(map[], widths, names[..0], size)
  {
    assert names[..0] == [];
  }

  /** The terminator of bucket b is in place. */
  ghost predicate Ended(mem: Memory, test: seq<nat>, names: seq<Name>, size: nat, b: nat)
    requires size > 0 && |test| == size && b < size
  {
    var n := Bytes(Chain(names, size, b));
    n > 0 ==> Base(test, b) + n in mem && mem[Base(test, b) + n] == End
  }

  lemma InsideStore(mem: Memory, a: nat, c: Cell, len: nat)
    requires Inside(mem, len) && a + Size(c) <= len
    ensures Inside(Store(mem, a, c), len)
  {
  }

  /** A terminator behind the elements of bucket i leaves all elements. */
  lemma EndKeepsElts(mem: Memory, mem': Memory, names: seq<Name>, size: nat, test: seq<nat>, i: nat)
    requires size > 0 && Roomy(names, size, test) && i < size && Filled(mem, test, names, size) &&
             Bytes(Chain(names, size, i)) > 0
    requires mem' == Store(mem, Base(test, i) + Bytes(Chain(names, size, i)), End)
    ensures Filled(mem', test, names, size)
  {
    var off := Bytes(Chain(names, size, i));
    forall b | 0 <= b < size ensures HasElts(mem', Base(test, b), Chain(names, size, b)) {
      EndKeepsBucket(mem, names, size, test, i, off, b);
    }
  }

  lemma EndKeepsBucket(mem: Memory, names: seq<Name>, size: nat, test: seq<nat>, i: nat, off: nat, b: nat)
    requires size > 0 && Roomy(names, size, test) && i < size && b < size && off == Bytes(Chain(names, size, i)) > 0
    requires HasElts(mem, Base(test, b), Chain(names, size, b))
    ensures HasElts(Store(mem, Base(test, i) + off, End), Base(test, b), Chain(names, size, b))
  {
    var list := Chain(names, size, b);
    ChainNames(names, size, b);
    if b != i { BucketsApart(names, size, test, b, i, Bytes(list), off, PTR_SIZE); }
    EltsStay(mem, Base(test, b), list, Base(test, i) + off, End);
  }

  ghost predicate AllEnded(mem: Memory, test: seq<nat>, names: seq<Name>, size: nat, i: nat)
    requires size > 0 && |test| == size && i <= size
  {
    forall b {:trigger Ended(mem, test, names, size, b)} :: 0 <= b < i ==> Ended(mem, test, names, size, b)
  }

  lemma EndStep(mem: Memory, mem': Memory, names: seq<Name>, size: nat, test: seq<nat>, i: nat)
    requires size > 0 && Roomy(names, size, test) && i < size && AllEnded(mem, test, names, size, i)
    requires Bytes(Chain(names, size, i)) > 0 && mem' == Store(mem, Base(test, i) + Bytes(Chain(names, size, i)), End)
    ensures AllEnded(mem', test, names, size, i + 1)
  {
    forall b | 0 <= b < i + 1 ensures Ended(mem', test, names, size, b) {
      if b < i { EndStays(mem, names, size, test, i, b); }
    }
  }

  lemma EndStays(mem: Memory, names: seq<Name>, size: nat, test: seq<nat>, i: nat, b: nat)
    requires size > 0 && Roomy(names, size, test) && b < i < size && Ended(mem, test, names, size, b) &&
             Bytes(Chain(names, size, i)) > 0
    ensures Ended(Store(mem, Base(test, i) + Bytes(Chain(names, size, i)), End), test, names, size, b)
  {
    var n, off := Bytes(Chain(names, size, b)), Bytes(Chain(names, size, i));
    if n > 0 {
      BucketsApart(names, size, test, b, i, n + PTR_SIZE, off, PTR_SIZE);
    }
  }

  lemma EndFits(names: seq<Name>, size: nat, test: seq<nat>, i: nat)
    requires size > 0 && Roomy(names, size, test) && i < size && test[i] != PTR_SIZE
    ensures 0 < Bytes(Chain(names, size, i)) &&
            Base(test, i) + Bytes(Chain(names, size, i)) + PTR_SIZE <= Base(test, size)
  {
    BaseMono(test, i, size);
  }

  /** Lines 406-414: a NULL value behind the last element of each bucket. */
  method Terminate(names: seq<Name>, size: nat, mem0: Memory, test: seq<nat>, buckets: seq<Bucket>,
                   ghost widths: seq<nat>) returns (mem: Memory)
    requires size > 0 && Roomy(names, size, widths) && Pointing(buckets, widths, size) &&
             Sums(names, |names|, size, test, 0)
    requires Filled(mem0, widths, names, size) && Inside(mem0, Base(widths, size))
    ensures Filled(mem, widths, names, size) && Inside(mem, Base(widths, size)) &&
            AllEnded(mem, widths, names, size, size)
  {
    mem := mem0;
    assert names[..|names|] == names;
    for i := 0 to size
      invariant Filled(mem, widths, names, size) && Inside(mem, Base(widths, size)) &&
                AllEnded(mem, widths, names, size, i)
    {
      assert test[i] == Bytes(Chain(names, size, i));
      mem := TerminateOne(names, size, mem, buckets[i], test[i], i, widths);
    }
  }

  method TerminateOne(names: seq<Name>, size: nat, mem0: Memory, bucket: Bucket, at: nat, i: nat,
                      ghost widths: seq<nat>) returns (mem: Memory)
    requires i < size && Roomy(names, size, widths) && at == Bytes(Chain(names, size, i))
    requires bucket == if widths[i] == PTR_SIZE then Null else At(Base(widths, i))
    requires Filled(mem0, widths, names, size) && Inside(mem0, Base(widths, size))
    requires AllEnded(mem0, widths, names, size, i)
    ensures Filled(mem, widths, names, size) && Inside(mem, Base(widths, size))
    ensures AllEnded(mem, widths, names, size, i + 1)
  {
    mem := mem0;
    if bucket.At? {
      EndFits(names, size, widths, i);
      InsideStore(mem, bucket.a + at, End, Base(widths, size));
      mem := Store(mem, bucket.a + at, End);
      EndKeepsElts(mem0, mem, names, size, widths, i);
      EndStep(mem0, mem, names, size, widths, i);
    }
  }

  // ----- the whole table -----

  /** All elements and terminators are where the buckets lead, inside the block. */
  ghost predicate Packed(h: Hash, names: seq<Name>, widths: seq<nat>) {
    && h.size > 0 && Roomy(names, h.size, widths) && Aligned(widths) && Pointing(h.buckets, widths, h.size)
    && Filled(h.mem, widths, names, h.size) && AllEnded(h.mem, widths, names, h.size, h.size) &&
       Inside(h.mem, Base(widths, h.size))
  }

  /** ngx_hash_init, when a size fits; the block has len bytes. */
  method HashInit(names: seq<Name>, maxSize: nat, bucketSize: nat, cacheline: nat)
      returns (ok: bool, h: Hash, len: nat, ghost widths: seq<nat>)
    requires NoWrap(names, bucketSize) && (names == [] ==> bucketSize >= 3 * PTR_SIZE)
    requires cacheline > 0 && cacheline % PTR_SIZE == 0 && AlignTo(bucketSize, cacheline) < SHORT
    ensures ok ==> Packed(h, names, widths) && len == Base(widths, h.size)
    ensures IsSize(names, maxSize, bucketSize, if ok then h.size else 0) && (ok ==> h.size > 0)
  {
    ok, h, len, widths := false, Hash(0, [], map[]), 0, [];
    var size := FindSize(names, maxSize, bucketSize);
    if size == 0 {
      return;
    }
    PickedFits(names, maxSize, bucketSize, size);
    var test;
    test, len := Widths(names, size, bucketSize - PTR_SIZE, cacheline);
    widths := test;
    var buckets := Place(test);
    var mem;
    mem, test := Fill(names, size, buckets, widths);
    mem := Terminate(names, size, mem, test, buckets, widths);
    ok, h := true, Hash(size, buckets, mem);
  }

  /** The value of the first name that equals name in lower case. */
  function FirstIn(list: seq<Name>, name: string): Option {
    if list == [] then None
    else if list[0].Name? && Lower(list[0].key) == name then Some(list[0].value)
    else FirstIn(list[1..], name)
  }

  lemma {:induction false} FirstInSnoc(list: seq<Name>, n: Name, name: string)
    ensures FirstIn(list + [n], name) ==
      if FirstIn(list, name).Some? then FirstIn(list, name)
      else if n.Name? && Lower(n.key) == name then Some(n.value) else None
  {
    if list == [] {
      assert list + [n] == [n];
    } else {
      assert (list + [n])[1..] == list[1..] + [n];
      FirstInSnoc(list[1..], n, name);
    }
  }

  /** Looking in the one bucket is looking everywhere. */
  lemma {:induction false} BucketFinds(names: seq<Name>, size: nat, b: nat, name: string)
    requires size > 0 && forall n :: n in names && n.Name? && Lower(n.key) == name ==> Goes(n, size, b)
    ensures FirstIn(Chain(names, size, b), name) == FirstIn(names, name)
    decreases |names|
  {
    if names != [] {
      var most, n := names[..|names| - 1], names[|names| - 1];
      assert names == most + [n];
      BucketFinds(most, size, b, name);
      FirstInSnoc(most, n, name);
      if Goes(n, size, b) {
        FirstInSnoc(Chain(most, size, b), n, name);
      } else {
        assert Chain(most, size, b) + [] == Chain(most, size, b);
      }
    }
  }

  /** Lines 29-37 */
  method SameName(name: string, other: string) returns (same: bool)
    ensures same <==> name == other
  {
    if |name| != |other| {
      return false;
    }
    for i := 0 to |name|
      invariant name[..i] == other[..i]
    {
      if name[i] != other[i] {
        return false;
      }
    }
    assert name[..|name|] == name && other[..|other|] == other;
    return true;
  }

  /** Lines 43-44: the next element starts at the next multiple of a pointer's size. */
  function NextElt(elt: nat, len: nat): nat { Align8(elt + PTR_SIZE + 2 + len) }

  /** A bucket as the walk sees it. */
  ghost predicate Laid(mem: Memory, base: nat, list: seq<Name>) {
    && base % PTR_SIZE == 0 && HasElts(mem, base, list) && base + Bytes(list) in mem && mem[base + Bytes(list)] == End
    && forall n :: n in list ==> n.Name?
  }

  lemma PackedLaid(h: Hash, names: seq<Name>, widths: seq<nat>, b: nat)
    requires Packed(h, names, widths) && b < h.size
    ensures h.buckets[b].Null? ==> Chain(names, h.size, b) == []
    ensures h.buckets[b].At? ==> Laid(h.mem, h.buckets[b].a, Chain(names, h.size, b))
  {
    if h.buckets[b].Null? {
      EmptyBucket(names, h.size, b);
    } else {
      EndFits(names, h.size, widths, b);
      assert Ended(h.mem, widths, names, h.size, b);
      BucketLaid(h.mem, names, h.size, widths, b);
    }
  }

  lemma BucketLaid(mem: Memory, names: seq<Name>, size: nat, widths: seq<nat>, b: nat)
    requires size > 0 && |widths| == size && b < size && Aligned(widths) && Bytes(Chain(names, size, b)) > 0
    requires HasElts(mem, Base(widths, b), Chain(names, size, b)) && Ended(mem, widths, names, size, b)
    ensures Laid(mem, Base(widths, b), Chain(names, size, b))
  {
    ChainNames(names, size, b);
    BaseAligned(widths, b);
  }

  lemma NextIs(base: nat, off: nat, len: nat)
    requires base % PTR_SIZE == 0 && off % PTR_SIZE == 0
    ensures EltSize(len) % PTR_SIZE == 0 && NextElt(base + off, len) == base + (off + EltSize(len))
  {
  }

  lemma ReadElt(mem: Memory, base: nat, list: seq<Name>, k: nat)
    requires HasElts(mem, base, list) && k < |list|
    ensures base + Bytes(list[..k]) in mem && mem[base + Bytes(list[..k])] == EltOf(list[k])
  {
    assert HasElt(mem, base, list, k);
  }

  /** The walk at element k. */
  lemma WalkElt(mem: Memory, base: nat, list: seq<Name>, k: nat)
    requires Laid(mem, base, list) && k < |list|
    ensures list[k].Name? && base + Bytes(list[..k]) in mem && mem[base + Bytes(list[..k])] == EltOf(list[k])
    ensures NextElt(base + Bytes(list[..k]), |list[k].key|) == base + Bytes(list[..k + 1])
  {
    assert list[k].Name? by { assert list[k] in list; }
    ReadElt(mem, base, list, k);
    EltInside(list, k);
    BytesAligned(list[..k]);
    NextIs(base, Bytes(list[..k]), |list[k].key|);
  }

  lemma WalkEnd(mem: Memory, base: nat, list: seq<Name>)
    requires Laid(mem, base, list)
    ensures base + Bytes(list[..|list|]) in mem && mem[base + Bytes(list[..|list|])] == End
  {
    assert list[..|list|] == list;
  }

  lemma Walk(mem: Memory, base: nat, list: seq<Name>, k: nat)
    requires Laid(mem, base, list) && k <= |list|
    ensures base + Bytes(list[..k]) in mem &&
            mem[base + Bytes(list[..k])] == (if k == |list| then End else EltOf(list[k]))
  {
    if k == |list| { WalkEnd(mem, base, list); } else { WalkElt(mem, base, list, k); }
  }

  lemma {:induction false} FirstInSkip(list: seq<Name>, k: nat, name: string)
    requires k <= |list| && forall i :: 0 <= i < k ==> list[i].Name? ==> Lower(list[i].key) != name
    ensures FirstIn(list, name) == FirstIn(list[k..], name)
    decreases k
  {
    if k > 0 {
      FirstInSkip(list[1..], k - 1, name);
      assert list[1..][k - 1..] == list[k..];
    } else {
      assert list[0..] == list;
    }
  }

  /** ngx_hash_find */
  method Find(h: Hash, key: nat, name: string, ghost names: seq<Name>, ghost widths: seq<nat>) returns (r: Option)
    requires Packed(h, names, widths) && forall n :: n in names && n.Name? ==> n.value > 0
    ensures r == FirstIn(Chain(names, h.size, Index(key, h.size)), name)
  {
    var b := Index(key, h.size);
    ghost var list := Chain(names, h.size, b);
    PackedLaid(h, names, widths, b);
    if h.buckets[b].Null? {
      return None;
    }
    ChainValues(names, h.size, b);
    r := Scan(h.mem, h.buckets[b].a, name, list);
  }

  ghost predicate Live(list: seq<Name>) { forall i :: 0 <= i < |list| ==> list[i].Name? && list[i].value > 0 }

  /** Lines 28-48 */
  method Scan(mem: Memory, base: nat, name: string, ghost list: seq<Name>) returns (r: Option)
    requires Laid(mem, base, list) && Live(list)
    ensures r == FirstIn(list, name)
  {
    var elt := base;
    ghost var k := 0;
    assert list[..0] == [];
    Walk(mem, base, list, 0);
    while mem[elt].Elt? && mem[elt].value != 0
      invariant 0 <= k <= |list| && elt == base + Bytes(list[..k]) && elt in mem &&
                mem[elt] == (if k == |list| then End else EltOf(list[k]))
      invariant forall i :: 0 <= i < k ==> list[i].Name? ==> Lower(list[i].key) != name
      decreases |list| - k
    {
      WalkElt(mem, base, list, k);
      var same := SameName(name, mem[elt].name);
      if same {
        FirstInSkip(list, k, name);
        return Some(mem[elt].value);
      }
      elt := NextElt(elt, |mem[elt].name|);
      k := k + 1;
      Walk(mem, base, list, k);
    }
    FirstInSkip(list, k, name);
    return None;
  }

  lemma ChainValues(names: seq<Name>, size: nat, b: nat)
    requires size > 0 && forall n :: n in names && n.Name? ==> n.value > 0
    ensures Live(Chain(names, size, b))
  {
    ChainNames(names, size, b);
    var list := Chain(names, size, b);
    assert forall i :: 0 <= i < |list| ==> list[i] in list;
  }

  lemma EmptyBucket(names: seq<Name>, size: nat, b: nat)
    requires size > 0 && Bytes(Chain(names, size, b)) == 0
    ensures Chain(names, size, b) == []
  {
    var list := Chain(names, size, b);
    ChainNames(names, size, b);
    assert forall i :: 0 <= i < |list| ==> list[i] in list;
  }

  /** With key_hash computed from the lowered names, a lookup finds a name exactly if it was supplied. */
  lemma FindIffSupplied(names: seq<Name>, size: nat, hash: string -> nat, name: string)
    requires size > 0 && forall n :: n in names && n.Name? ==> n.hash == hash(Lower(n.key))
    ensures FirstIn(Chain(names, size, Index(hash(name), size)), name) == FirstIn(names, name)
    ensures FirstIn(names, name).Some? <==> exists n :: n in names && n.Name? && Lower(n.key) == name
  {
    BucketFinds(names, size, Index(hash(name), size), name);
    FirstInIff(names, name);
  }

  lemma {:induction false} FirstInIff(names: seq<Name>, name: string)
    ensures FirstIn(names, name).Some? <==> exists n :: n in names && n.Name? && Lower(n.key) == name
    ensures FirstIn(names, name).Some? ==>
            exists n :: n in names && n.Name? && Lower(n.key) == name && FirstIn(names, name) == Some(n.value)
  {
    if names != [] {
      FirstInIff(names[1..], name);
      assert forall n :: n in names <==> n == names[0] || n in names[1..];
    }
  }
}
