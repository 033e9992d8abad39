/**
 IP addresses read from text: ngx_inet_addr and ngx_inet6_addr of src/core/ngx_inet.c, lines 17-171.
 An IPv6 address is 16 bytes.  The two functions accept exactly the texts of a small grammar.
 */
module InetRead {
  import opened Digits

  datatype Option<T> = None | Some(value: T)

  const NONE := 0xffff_ffff                // INADDR_NONE
  const UINT := 0x1_0000_0000_0000_0000    // the range of ngx_uint_t

  // ----- IPv4 -----

  /** ngx_inet_addr after some characters; the result in host order, None for INADDR_NONE. */
  function Scan4(addr: nat, octet: nat, n: nat, s: string): Option<nat>
    decreases |s|
  {
    if s == "" then
      if n == 3 && octet < 256 &&
        (addr * 256 + octet) % 0x1_0000_0000 != NONE then Some((addr * 256 + octet) % 0x1_0000_0000) else None
    else
      var c := s[0];
      if '0' <= c <= '9' then Scan4(addr, (octet * 10 + (c as int - '0' as int)) % UINT, n, s[1..])
      else if c == '.' && octet < 256 then Scan4((addr * 256 + octet) % 0x1_0000_0000, 0, n + 1, s[1..])
      else None
  }

  /** ngx_inet_addr, with htonl left out */
  method InetAddr(text: string) returns (r: Option<nat>)
    ensures r == Scan4(0, 0, 0, text)
    ensures forall v: nat {:trigger IsDotted(text, v)} :: r == Some(v) <==> IsDotted(text, v)
  {
    forall v: nat ensures Scan4(0, 0, 0, text) == Some(v) <==> IsDotted(text, v) { AddrExact(text, v); }
    var addr, octet, n, p := 0, 0, 0, 0;
    assert text[0..] == text;
    while p < |text|
      invariant 0 <= p <= |text| && 0 <= octet && 0 <= addr && 0 <= n &&
                Scan4(0, 0, 0, text) == Scan4(addr, octet, n, text[p..])
    {
      var c := text[p];
      assert text[p..][1..] == text[p + 1..];
      if '0' <= c <= '9' {
        octet := (octet * 10 + (c as int - '0' as int)) % UINT;
      } else if c == '.' && octet < 256 {
        addr := (addr * 256 + octet) % 0x1_0000_0000;
        octet := 0;
        n := n + 1;
      } else {
        return None;
      }
      p := p + 1;
    }
    if n == 3 && octet < 256 {
      addr := (addr * 256 + octet) % 0x1_0000_0000;
      return if addr == NONE then None else Some(addr);
    }
    return None;
  }

  /** A string of decimal digits, perhaps empty. */
  ghost predicate Decimal(x: string) { forall c :: c in x ==> 0 <= CharVal(c) < 10 }

  /** What the digits mean in an ngx_uint_t. */
  function Octet(x: string): nat { Read(0, x, 10) % UINT }

  /** Four strings with dots between them. */
  function Four(a: string, b: string, c: string, d: string): string { a + "." + (b + "." + (c + "." + d)) }

  lemma WholeTurns(k: nat, x: nat)
    ensures (UINT * k + x) % UINT == x % UINT
  {
  }

  lemma NextWrapped(o: nat, d: nat)
    ensures (o % UINT * 10 + d) % UINT == (o * 10 + d) % UINT
  {
    var q, r := o / UINT, o % UINT;
    assert o * 10 + d == UINT * (10 * q) + (r * 10 + d);
    WholeTurns(10 * q, r * 10 + d);
  }

  /** Wrapping around at each digit is the same as wrapping around at the end. */
  lemma {:induction false} ReadWrapped(o: nat, ds: string)
    ensures Read(o % UINT, ds, 10) % UINT == Read(o, ds, 10) % UINT
    decreases |ds|
  {
    if ds != "" {
      var d, r := if CharVal(ds[0]) < 0 then 0 else CharVal(ds[0]), o % UINT;
      NextWrapped(o, d);
      ReadWrapped(r * 10 + d, ds[1..]);
      ReadWrapped(o * 10 + d, ds[1..]);
    }
  }

  lemma Scan4Digit(addr: nat, octet: nat, n: nat, s: string, o: nat)
    requires s != "" && 0 <= CharVal(s[0]) < 10 && o == octet * 10 + CharVal(s[0])
    ensures Scan4(addr, octet, n, s) == Scan4(addr, o % UINT, n, s[1..])
  {
  }

  lemma {:induction false} Scan4Digits(addr: nat, octet: nat, n: nat, ds: string, rest: string)
    requires octet < UINT && forall c :: c in ds ==> 0 <= CharVal(c) < 10
    ensures Scan4(addr, octet, n, ds + rest) == Scan4(addr, Read(octet, ds, 10) % UINT, n, rest)
    decreases |ds|
  {
    if ds == "" {
      assert ds + rest == rest;
    } else {
      var o := octet * 10 + CharVal(ds[0]);
      assert ds[0] in ds;
      assert (ds + rest)[1..] == ds[1..] + rest;
      Scan4Digit(addr, octet, n, ds + rest, o);
      Scan4Digits(addr, o % UINT, n, ds[1..], rest);
      ReadWrapped(o, ds[1..]);
      assert Read(octet, ds, 10) == Read(o, ds[1..], 10);
    }
  }

  function Quad(a: nat, b: nat, c: nat, d: nat): nat { ((a * 256 + b) * 256 + c) * 256 + d }

  lemma Scan4Octet(addr: nat, n: nat, x: string, rest: string)
    requires Decimal(x)
    ensures Scan4(addr, 0, n, x + rest) == Scan4(addr, Octet(x), n, rest)
  {
    Scan4Digits(addr, 0, n, x, rest);
  }

  lemma Scan4Part(addr: nat, n: nat, x: string, rest: string)
    requires addr < 0x1_000000 && Decimal(x)
    ensures Scan4(addr, 0, n, x + "." + rest) ==
            if Octet(x) < 256 then Scan4(addr * 256 + Octet(x), 0, n + 1, rest) else None
  {
    assert x + "." + rest == x + ("." + rest);
    Scan4Octet(addr, n, x, "." + rest);
    assert ("." + rest)[1..] == rest;
  }

  lemma Scan4End(addr: nat, x: string)
    requires addr < 0x1_000000 && Decimal(x)
    ensures Scan4(addr, 0, 3, x) ==
            if Octet(x) < 256 && addr * 256 + Octet(x) != NONE then Some(addr * 256 + Octet(x)) else None
  {
    assert x == x + "";
    Scan4Octet(addr, 3, x, "");
  }

  /** The four octets are in range and are not 255.255.255.255, the address that looks like an error. */
  predicate OctetsOk(a: nat, b: nat, c: nat, d: nat) {
    a < 256 && b < 256 && c < 256 && d < 256 && Quad(a, b, c, d) != NONE
  }

  /** What the last two numbers make of an address. */
  function Ends(addr: nat, c: nat, d: nat): Option<nat> {
    if c < 256 && d < 256 && (addr * 256 + c) * 256 + d != NONE then Some((addr * 256 + c) * 256 + d) else None
  }

  lemma LastTwo(addr: nat, c: string, d: string)
    requires addr < 0x10000 && Decimal(c) && Decimal(d)
    ensures Scan4(addr, 0, 2, c + "." + d) == Ends(addr, Octet(c), Octet(d))
  {
    Scan4Part(addr, 2, c, d);
    if Octet(c) < 256 { Scan4End(addr * 256 + Octet(c), d); }
  }

  /** Four numbers with dots between them are taken exactly if their octets are good. */
  lemma FourRead(a: string, b: string, c: string, d: string)
    requires Decimal(a) && Decimal(b) && Decimal(c) && Decimal(d)
    ensures Scan4(0, 0, 0, Four(a, b, c, d)) ==
      if OctetsOk(Octet(a), Octet(b), Octet(c), Octet(d)) then Some(Quad(Octet(a), Octet(b), Octet(c), Octet(d)))
      else None
  {
    var a', b' := Octet(a), Octet(b);
    Scan4Part(0, 0, a, b + "." + (c + "." + d));
    if a' < 256 {
      Scan4Part(a', 1, b, c + "." + d);
      if b' < 256 { LastTwo(a' * 256 + b', c, d); }
    }
  }

  lemma {:induction false} TooManyDots(addr: nat, octet: nat, n: nat, s: string)
    requires n > 3
    ensures Scan4(addr, octet, n, s) == None
    decreases |s|
  {
    if s != "" {
      var c := s[0];
      if '0' <= c <= '9' {
        TooManyDots(addr, (octet * 10 + (c as int - '0' as int)) % UINT, n, s[1..]);
      } else if c == '.' && octet < 256 {
        TooManyDots((addr * 256 + octet) % 0x1_0000_0000, 0, n + 1, s[1..]);
      }
    }
  }

  /** How many decimal digits a text begins with. */
  function DigitRun(s: string): (k: nat)
    ensures k <= |s| && (k < |s| ==> !(0 <= CharVal(s[k]) < 10))
  {
    if s != "" && 0 <= CharVal(s[0]) < 10 then 1 + DigitRun(s[1..]) else 0
  }

  lemma {:induction false} RunIsDecimal(s: string)
    ensures Decimal(s[..DigitRun(s)])
  {
    if s != "" && 0 <= CharVal(s[0]) < 10 {
      RunIsDecimal(s[1..]);
      assert s[..DigitRun(s)] == [s[0]] + s[1..][..DigitRun(s[1..])];
    }
  }

  lemma FirstPart(addr: nat, n: nat, s: string) returns (x: string, rest: string)
    requires Scan4(addr, 0, n, s).Some?
    ensures Decimal(x) && s == x + rest && Scan4(addr, 0, n, s) == Scan4(addr, Octet(x), n, rest)
    ensures rest == "" || (rest[0] == '.' && Octet(x) < 256)
  {
    var k := DigitRun(s);
    x, rest := s[..k], s[k..];
    RunIsDecimal(s);
    assert s == x + rest;
    Scan4Octet(addr, n, x, rest);
  }

  lemma NextPart(addr: nat, n: nat, s: string) returns (x: string, rest: string)
    requires n < 3 && Scan4(addr, 0, n, s).Some?
    ensures Decimal(x) && s == x + "." + rest
    ensures Octet(x) < 256 && Scan4((addr * 256 + Octet(x)) % 0x1_0000_0000, 0, n + 1, rest).Some?
  {
    var more;
    x, more := FirstPart(addr, n, s);
    rest := more[1..];
    assert more == "." + rest;
    assert s == x + "." + rest;
  }

  lemma LastPart(addr: nat, s: string)
    requires Scan4(addr, 0, 3, s).Some?
    ensures Decimal(s)
  {
    var x, rest := FirstPart(addr, 3, s);
    if rest != "" {
      TooManyDots((addr * 256 + Octet(x)) % 0x1_0000_0000, 0, 4, rest[1..]);
      assert false;
    }
    assert x + "" == x;
  }

  lemma FourParts(s: string) returns (a: string, b: string, c: string, d: string)
    requires Scan4(0, 0, 0, s).Some?
    ensures Decimal(a) && Decimal(b) && Decimal(c) && Decimal(d) && s == Four(a, b, c, d)
  {
    var s1, s2;
    a, s1 := NextPart(0, 0, s);
    var x := (0 * 256 + Octet(a)) % 0x1_0000_0000;
    b, s2 := NextPart(x, 1, s1);
    var y := (x * 256 + Octet(b)) % 0x1_0000_0000;
    c, d := NextPart(y, 2, s2);
    LastPart((y * 256 + Octet(c)) % 0x1_0000_0000, d);
  }

  /** The text is four strings of digits, each below 256 modulo 2^64, with dots between them, and v its address. */
  ghost predicate IsDotted(s: string, v: nat) {
    exists a, b, c, d {:trigger Four(a, b, c, d)} ::
      && s == Four(a, b, c, d) && Decimal(a) && Decimal(b) && Decimal(c) && Decimal(d)
      && OctetsOk(Octet(a), Octet(b), Octet(c), Octet(d)) && v == Quad(Octet(a), Octet(b), Octet(c), Octet(d))
  }

  /** ngx_inet_addr takes exactly the dotted texts. */
  lemma AddrExact(s: string, v: nat)
    ensures Scan4(0, 0, 0, s) == Some(v) <==> IsDotted(s, v)
  {
    if Scan4(0, 0, 0, s) == Some(v) {
      var a, b, c, d := FourParts(s);
      FourRead(a, b, c, d);
    }
    if IsDotted(s, v) {
      var a, b, c, d :| s == Four(a, b, c, d) && Decimal(a) && Decimal(b) && Decimal(c) && Decimal(d) &&
        OctetsOk(Octet(a), Octet(b), Octet(c), Octet(d)) && v == Quad(Octet(a), Octet(b), Octet(c), Octet(d));
      FourRead(a, b, c, d);
    }
  }

  /** 18446744073709551617.0.0.1 is taken for 1.0.0.1. */
  lemma TooLargeIsTaken()
    ensures Scan4(0, 0, 0, Four(Text(UINT + 1, 10), "0", "0", "1")) == Some(Quad(1, 0, 0, 1))
  {
    var a := Text(UINT + 1, 10);
    ReadText(UINT + 1, 10);
    TextDigits(UINT + 1, 10);
    assert "0"[1..] == "" && "1"[1..] == "";
    assert Octet("0") == 0 && Octet("1") == 1;
    FourRead(a, "0", "0", "1");
  }

  // ----- IPv6, reading -----

  /** The two low-order bytes of a word. */
  function Pair(w: nat): seq<nat> { [w / 256 % 256, w % 256] }

  /**
   The variables of ngx_inet6_addr: the bytes written, where "::" was (-1 is NULL), the digits
   and value of the current group, and whether there was a colon and what came after it.
   */
  datatype State = State(out: seq<nat>, zero: int, nibbles: nat, word: nat, seen: bool, since: string)

  datatype Scanned = Fail | Done(out: seq<nat>, zero: int, nibbles: nat, word: nat)

  /** The loop of lines 81-143 on the rest of the text. */
  function Scan(st: State, s: string): Scanned
    decreases |s|
  {
    if s == "" then Done(st.out, st.zero, st.nibbles, st.word)
    else if s[0] == ':' then
      if st.nibbles > 0 then
        if |st.out| + 2 == 16 then Fail else Scan(State(st.out + Pair(st.word), st.zero, 0, 0, true, ""), s[1..])
      else if st.zero < 0 then Scan(st.(zero := |st.out|, seen := true, since := ""), s[1..])
      else Fail
    else if s[0] == '.' && st.nibbles > 0 then
      if |st.out| > 12 || !st.seen then Fail
      else
        match Scan4(0, 0, 0, st.since + s)
        case None => Fail
        case Some(v) => Done(st.out + Pair(v / 0x10000), st.zero, st.nibbles, v)
    else if st.nibbles + 1 > 4 || CharVal(s[0]) < 0 then Fail
    else Scan(st.(nibbles := st.nibbles + 1, word := st.word * 16 + CharVal(s[0]), since := st.since + [s[0]]), s[1..])
  }

  function Zeros(n: nat): seq<nat> { seq(n, _ => 0) }

  /** Lines 145-170: the last group, and zeros where "::" was. */
  function Close(d: Scanned): Option<seq<nat>> {
    if d.Fail? || (d.nibbles == 0 && d.zero < 0) then None
    else
      var out := d.out + Pair(d.word);
      if |out| < 16 then
        if 0 <= d.zero <= |out| then Some(out[..d.zero] + Zeros(16 - |out|) + out[d.zero..]) else None
      else if d.zero < 0 then Some(out) else None
  }

  const START := State([], -1, 0, 0, false, "")

  function Parse(text: string): Option<seq<nat>> {
    if text == "" then None else Close(Scan(START, Skipped(text)))
  }

  /** ngx_inet6_addr */
  method Inet6Addr(text: string) returns (r: Option<seq<nat>>)
    ensures r == Parse(text) && (r.Some? ==> IsAddress(r.value))
    ensures forall v {:trigger Denotes(text, v)} :: r == Some(v) <==> Denotes(text, v)
  {
    forall v ensures (Parse(text) == Some(v) <==> Denotes(text, v)) && (Denotes(text, v) ==> IsAddress(v)) {
      ParseExact(text, v);
    }
    if |text| == 0 {
      return None;
    }
    var p := 0;
    if text[0] == ':' {
      p := 1;
    }
    assert text[0..] == text;
    r := ReadGroups(text, p, START);
  }

  /** Lines 81-143 */
  method ReadGroups(text: string, p0: nat, ghost start: State) returns (r: Option<seq<nat>>)
    requires p0 <= |text| && start == START
    ensures r == Close(Scan(start, text[p0..]))
  {
    var p := p0;
    ghost var st := start;
    var zero, digit, nibbles, word, n, addr := -1, -1, 0, 0, 8, [];
    while p < |text|
      invariant 0 <= p <= |text| && -1 <= digit <= p && 0 < n <= 8 && |addr| == 16 - 2 * n && zero <= |addr| &&
                0 <= nibbles && 0 <= word
      invariant st == State(addr, zero, nibbles, word, digit >= 0, st.since) &&
                (digit >= 0 ==> st.since == text[digit..p])
      invariant Scan(start, text[p0..]) == Scan(st, text[p..])
      decreases |text| - p
    {
      var c := text[p];
      assert text[p..][1..] == text[p + 1..];
      if c == ':' {
        if nibbles > 0 {
          digit := p + 1;
          addr := addr + Pair(word);
          n := n - 1;
          if n == 0 {
            return None;
          }
          nibbles, word := 0, 0;
        } else if zero < 0 {
          digit := p + 1;
          zero := |addr|;
        } else {
          return None;
        }
        st := State(addr, zero, nibbles, word, true, "");
      } else if c == '.' && nibbles > 0 {
        r := Dotted4(text, p, digit, addr, zero, nibbles, n, st);
        return;
      } else {
        nibbles := nibbles + 1;
        if nibbles > 4 || CharVal(c) < 0 {
          return None;
        }
        word := word * 16 + CharVal(c);
        if digit >= 0 { assert text[digit..p + 1] == text[digit..p] + [c]; }
        st := st.(nibbles := nibbles, word := word, since := st.since + [c]);
      }
      p := p + 1;
    }
    r := Last(addr, zero, nibbles, word, n);
  }

  lemma Glue(text: string, i: nat, j: nat)
    requires i <= j <= |text|
    ensures text[i..j] + text[j..] == text[i..]
  {
  }

  /** Lines 109-123 and what follows the loop */
  method Dotted4(text: string, p: nat, digit: int, addr0: seq<nat>, zero: int, nibbles: nat, n: nat, ghost st: State)
      returns (r: Option<seq<nat>>)
    requires p < |text| && text[p] == '.' && -1 <= digit <= p && nibbles > 0
    requires 0 < n <= 8 && |addr0| == 16 - 2 * n && zero <= |addr0|
    requires st.out == addr0 && st.zero == zero && st.nibbles == nibbles && st.seen == (digit >= 0)
    requires digit >= 0 ==> st.since == text[digit..p]
    ensures r == Close(Scan(st, text[p..]))
  {
    if n < 2 || digit < 0 {
      return None;
    }
    Glue(text, digit, p);
    ScanAtDot(st, text[p..]);
    var v := InetAddr(text[digit..]);
    if v.None? {
      return None;
    }
    r := Last(addr0 + Pair(v.value / 0x10000), zero, nibbles, v.value, n - 1);
  }

  /** Lines 145-170 */
  method Last(addr0: seq<nat>, zero: int, nibbles: nat, word: nat, n0: nat) returns (r: Option<seq<nat>>)
    requires 0 < n0 <= 8 && |addr0| == 16 - 2 * n0 && zero <= |addr0|
    ensures r == Close(Done(addr0, zero, nibbles, word))
  {
    if nibbles == 0 && zero < 0 {
      return None;
    }
    var addr := addr0 + Pair(word);
    var n := n0 - 1;
    if n > 0 {
      if zero >= 0 {
        n := n * 2;
        return Some(addr[..zero] + Zeros(n) + addr[zero..]);
      }
    } else if zero < 0 {
      return Some(addr);
    }
    return None;
  }

  // ----- the texts that are accepted -----

  /** A group: one to four hexadecimal digits of either case. */
  ghost predicate IsGroup(x: string) { 1 <= |x| <= 4 && IsHex(x) }

  ghost predicate IsHex(x: string) { forall c :: c in x ==> CharVal(c) >= 0 }

  ghost predicate AreGroups(gs: seq<string>) { forall i {:trigger GroupAt(gs, i)} :: GroupAt(gs, i) }

  ghost predicate GroupAt(gs: seq<string>, i: int) { 0 <= i < |gs| ==> IsGroup(gs[i]) }

  lemma GroupsSplit(gs: seq<string>)
    requires AreGroups(gs) && gs != []
    ensures AreGroups(gs[..|gs| - 1]) && IsGroup(gs[|gs| - 1])
  {
    var most := gs[..|gs| - 1];
    assert GroupAt(gs, |gs| - 1);
    forall i ensures GroupAt(most, i) { assert GroupAt(gs, i); }
  }

  lemma GroupsJoin(x: seq<string>, y: seq<string>)
    requires AreGroups(x) && AreGroups(y)
    ensures AreGroups(x + y)
  {
    var z := x + y;
    forall i ensures GroupAt(z, i) { assert GroupAt(x, i) && GroupAt(y, i - |x|); }
  }

  lemma GroupOne(x: string)
    requires IsGroup(x)
    ensures AreGroups([x])
  {
    var z := [x];
    forall i ensures GroupAt(z, i) {}
  }

  /** How a text ends: with nothing behind the last colon, with a group, or with a dotted address. */
  datatype Tail = Nothing | Word(x: string) | Dots(a: string, b: string, c: string, d: string)

  /** Groups before and behind a "::", if there is one, each with its colon, and the tail. */
  datatype Form = Form(left: seq<string>, elided: bool, right: seq<string>, tail: Tail)

  function Colons(gs: seq<string>): string {
    if gs == [] then "" else Colons(gs[..|gs| - 1]) + gs[|gs| - 1] + ":"
  }

  function TailText(t: Tail): string {
    match t
    case Nothing => ""
    case Word(x) => x
    case Dots(a, b, c, d) => Four(a, b, c, d)
  }

  function Spell(f: Form): string {
    Colons(f.left) + if f.elided then ":" + (Colons(f.right) + TailText(f.tail)) else TailText(f.tail)
  }

  /** The first number of a dotted tail is read as a group before its dot shows what it is. */
  ghost predicate IsTail(t: Tail) {
    match t
    case Nothing => true
    case Word(x) => IsGroup(x)
    case Dots(a, b, c, d) => 1 <= |a| <= 4 && Decimal(a) && Decimal(b) && Decimal(c) && Decimal(d)
  }

  ghost predicate Shaped(f: Form) {
    AreGroups(f.left) && AreGroups(f.right) && (!f.elided ==> f.right == []) && IsTail(f.tail)
  }

  /** The words that the groups and the tail make; behind a colon at the end it is 0. */
  function Count(f: Form): nat { |f.left| + |f.right| + if f.tail.Dots? then 2 else 1 }

  /** Eight words, or at most seven with "::", which alone allows a colon at the end. */
  ghost predicate Accepted(f: Form) {
    && Shaped(f) && (if f.elided then Count(f) <= 7 else Count(f) == 8 && !f.tail.Nothing?)
    && (f.tail.Dots? ==> OctetsOk(Octet(f.tail.a), Octet(f.tail.b), Octet(f.tail.c), Octet(f.tail.d)))
  }

  function GroupBytes(gs: seq<string>): (r: seq<nat>)
    ensures |r| == 2 * |gs|
  {
    if gs == [] then [] else GroupBytes(gs[..|gs| - 1]) + Pair(Read(0, gs[|gs| - 1], 16))
  }

  function TailBytes(t: Tail): seq<nat> {
    match t
    case Nothing => [0, 0]
    case Word(x) => Pair(Read(0, x, 16))
    case Dots(a, b, c, d) => [Octet(a), Octet(b), Octet(c), Octet(d)]
  }

  /** The address, with zeros for "::". */
  function Meaning(f: Form): seq<nat>
    requires Count(f) <= 8
  {
    var rest := GroupBytes(f.right) + TailBytes(f.tail);
    GroupBytes(f.left) + if f.elided then Zeros(16 - 2 * Count(f)) + rest else rest
  }

  /** The text without the colon that lines 75-78 skip. */
  function Skipped(text: string): string { if text != "" && text[0] == ':' then text[1..] else text }

  /** The text stands for the address v. */
  ghost predicate Denotes(text: string, v: seq<nat>) {
    text != "" && exists f {:trigger Spell(f)} :: Accepted(f) && Skipped(text) == Spell(f) && v == Meaning(f)
  }

  ghost predicate IsAddress(p: seq<nat>) { |p| == 16 && forall i :: 0 <= i < 16 ==> p[i] < 256 }

  lemma {:induction false} GroupBytesSmall(gs: seq<string>)
    ensures forall i :: 0 <= i < |GroupBytes(gs)| ==> GroupBytes(gs)[i] < 256
  {
    if gs != [] { GroupBytesSmall(gs[..|gs| - 1]); }
  }

  lemma MeaningIsAddress(f: Form)
    requires Accepted(f)
    ensures IsAddress(Meaning(f))
  {
    GroupBytesSmall(f.left);
    GroupBytesSmall(f.right);
  }

  // ----- scanning a form -----

  /** Between groups, after a colon or at the start. */
  ghost predicate Between(st: State) { st.nibbles == 0 && st.word == 0 && st.since == "" }

  lemma ScanDigit(st: State, s: string)
    requires s != "" && st.nibbles < 4 && CharVal(s[0]) >= 0
    ensures Scan(st, s) ==
      Scan(st.(nibbles := st.nibbles + 1, word := st.word * 16 + CharVal(s[0]), since := st.since + [s[0]]), s[1..])
  {
  }

  lemma {:induction false} ScanDigits(st: State, ds: string, rest: string)
    requires st.nibbles + |ds| <= 4 && forall c :: c in ds ==> CharVal(c) >= 0
    ensures Scan(st, ds + rest) == Scan(st.(nibbles := st.nibbles + |ds|, word := Read(st.word, ds, 16),
                since := st.since + ds), rest)
    decreases |ds|
  {
    if ds == "" {
      assert ds + rest == rest && st.since + ds == st.since;
    } else {
      var st' := st.(nibbles := st.nibbles + 1, word := st.word * 16 + CharVal(ds[0]), since := st.since + [ds[0]]);
      assert ds[0] in ds;
      assert (ds + rest)[1..] == ds[1..] + rest && st.since + [ds[0]] + ds[1..] == st.since + ds;
      ScanDigit(st, ds + rest);
      ScanDigits(st', ds[1..], rest);
    }
  }

  lemma ScanPiece(st: State, x: string, rest: string)
    requires Between(st) && |x| <= 4 && IsHex(x)
    ensures Scan(st, x + rest) == Scan(st.(nibbles := |x|, word := Read(0, x, 16), since := x), rest)
  {
    ScanDigits(st, x, rest);
    assert "" + x == x;
  }

  lemma ScanGroup(st: State, x: string, rest: string)
    requires Between(st) && IsGroup(x) && |st.out| < 16
    ensures Scan(st, x + (":" + rest)) ==
      if |st.out| == 14 then Fail
      else Scan(State(st.out + Pair(Read(0, x, 16)), st.zero, 0, 0, true, ""), rest)
  {
    ScanPiece(st, x, ":" + rest);
    assert (":" + rest)[1..] == rest;
  }

  /** The state after some groups. */
  function After(st: State, gs: seq<string>): State {
    st.(out := st.out + GroupBytes(gs), seen := st.seen || gs != [])
  }

  lemma AfterOne(st: State, gs: seq<string>)
    requires Between(st) && gs != []
    ensures var st', w := After(st, gs[..|gs| - 1]), Read(0, gs[|gs| - 1], 16);
      After(st, gs) == State(st'.out + Pair(w), st'.zero, 0, 0, true, "")
  {
    var most, p := GroupBytes(gs[..|gs| - 1]), Pair(Read(0, gs[|gs| - 1], 16));
    assert st.out + most + p == st.out + (most + p);
  }

  lemma {:induction false} ScanColons(st: State, gs: seq<string>, rest: string)
    requires Between(st) && AreGroups(gs) && |st.out| < 16 && |st.out| % 2 == 0
    ensures Scan(st, Colons(gs) + rest) == if |st.out| + 2 * |gs| < 16 then Scan(After(st, gs), rest) else Fail
    decreases |gs|
  {
    if gs == [] {
      assert Colons(gs) + rest == rest && st.out + [] == st.out;
    } else {
      var most, x := gs[..|gs| - 1], gs[|gs| - 1];
      var tail := x + (":" + rest);
      GroupsSplit(gs);
      assert Colons(gs) + rest == Colons(most) + tail;
      ScanColons(st, most, tail);
      if |st.out| + 2 * |most| < 16 {
        ScanGroup(After(st, most), x, rest);
        AfterOne(st, gs);
      }
    }
  }

  lemma ScanElision(st: State, rest: string)
    requires Between(st) && st.zero < 0
    ensures Scan(st, ":" + rest) == Scan(st.(zero := |st.out|, seen := true), rest)
  {
    assert (":" + rest)[1..] == rest;
  }

  lemma ScanEnd(st: State, s: string)
    requires s == ""
    ensures Scan(st, s) == Done(st.out, st.zero, st.nibbles, st.word)
  {
  }

  /** Lines 109-123 */
  lemma ScanAtDot(st: State, s: string)
    requires s != "" && s[0] == '.' && st.nibbles > 0 && |st.out| <= 12 && st.seen
    ensures Scan(st, s) ==
      match Scan4(0, 0, 0, st.since + s)
      case None => Fail
      case Some(v) => Done(st.out + Pair(v / 0x10000), st.zero, st.nibbles, v)
  {
  }

  lemma DecimalIsHex(x: string)
    requires Decimal(x)
    ensures IsHex(x)
  {
  }

  lemma ScanDots(st: State, t: Tail)
    requires Between(st) && IsTail(t) && t.Dots?
    ensures Scan(st, TailText(t)) ==
      if |st.out| > 12 || !st.seen then Fail
      else match Scan4(0, 0, 0, TailText(t))
           case None => Fail
           case Some(v) => Done(st.out + Pair(v / 0x10000), st.zero, |t.a|, v)
  {
    var rest := "." + (t.b + "." + (t.c + "." + t.d));
    assert TailText(t) == t.a + rest;
    DecimalIsHex(t.a);
    ScanPiece(st, t.a, rest);
    var st' := st.(nibbles := |t.a|, word := Read(0, t.a, 16), since := t.a);
    if |st.out| <= 12 && st.seen { ScanAtDot(st', rest); }
  }

  lemma QuadBytes(a: nat, b: nat, c: nat, d: nat)
    requires a < 256 && b < 256 && c < 256 && d < 256
    ensures Pair(Quad(a, b, c, d) / 0x10000) == [a, b] && Pair(Quad(a, b, c, d)) == [c, d]
  {
    assert Quad(a, b, c, d) == 0x10000 * (a * 256 + b) + (c * 256 + d);
    assert Quad(a, b, c, d) / 0x10000 == a * 256 + b;
    assert Quad(a, b, c, d) / 256 == 256 * (a * 256 + b) + c;
  }

  /** What is left to Close after the tail: None where the scan fails. */
  lemma CloseTail(st: State, t: Tail)
    requires Between(st) && IsTail(t) && |st.out| % 2 == 0 && |st.out| < 16
    ensures Close(Scan(st, TailText(t))) == TailResult(st, t)
  {
    match t
    case Nothing => ScanEnd(st, TailText(t));
    case Word(x) =>
      assert x + "" == x;
      ScanPiece(st, x, "");
      ScanEnd(st.(nibbles := |x|, word := Read(0, x, 16), since := x), "");
    case Dots(a, b, c, d) => CloseDots(st, t);
  }

  /** The bytes, with zeros put in at zero, or None. */
  function Filled(out: seq<nat>, zero: int): Option<seq<nat>> {
    if |out| < 16 then
      if 0 <= zero <= |out| then Some(out[..zero] + Zeros(16 - |out|) + out[zero..]) else None
    else if zero < 0 then Some(out) else None
  }

  ghost function TailResult(st: State, t: Tail): Option<seq<nat>> {
    match t
    case Nothing => if st.zero < 0 then None else Filled(st.out + [0, 0], st.zero)
    case Word(x) => Filled(st.out + Pair(Read(0, x, 16)), st.zero)
    case Dots(a, b, c, d) =>
      if |st.out| <= 12 && st.seen && OctetsOk(Octet(a), Octet(b), Octet(c), Octet(d)) then
        Filled(st.out + TailBytes(t), st.zero)
      else None
  }

  lemma CloseDots(st: State, t: Tail)
    requires Between(st) && IsTail(t) && t.Dots?
    ensures Close(Scan(st, TailText(t))) == TailResult(st, t)
  {
    var a, b, c, d := Octet(t.a), Octet(t.b), Octet(t.c), Octet(t.d);
    ScanDots(st, t);
    FourRead(t.a, t.b, t.c, t.d);
    if OctetsOk(a, b, c, d) {
      var v := Quad(a, b, c, d);
      QuadBytes(a, b, c, d);
      assert st.out + Pair(v / 0x10000) + Pair(v) == st.out + [a, b, c, d];
    }
  }

  /** Every shaped text is read: with its meaning if it is accepted, else not at all. */
  lemma FormRead(f: Form)
    requires Shaped(f)
    ensures Close(Scan(START, Spell(f))) == Reading(f)
  {
    if f.elided { ElidedRead(START, f); } else { PlainRead(START, f); }
  }

  ghost function Reading(f: Form): Option<seq<nat>>
    requires Shaped(f)
  {
    if Accepted(f) then Some(Meaning(f)) else None
  }

  lemma PlainRead(st: State, f: Form)
    requires Shaped(f) && !f.elided && st == START
    ensures Close(Scan(st, Spell(f))) == Reading(f)
  {
    ScanColons(st, f.left, TailText(f.tail));
    if |f.left| < 8 {
      CloseTail(After(st, f.left), f.tail);
      PlainResult(f, After(st, f.left));
    }
  }

  lemma PlainResult(f: Form, st: State)
    requires Shaped(f) && !f.elided && |f.left| < 8 && st.zero < 0 && (st.seen <==> f.left != [])
    requires st.out == [] + GroupBytes(f.left)
    ensures TailResult(st, f.tail) == Reading(f)
  {
    assert st.out == GroupBytes(f.left);
    assert GroupBytes(f.right) + TailBytes(f.tail) == TailBytes(f.tail);
  }

  lemma ElidedRead(st: State, f: Form)
    requires Shaped(f) && f.elided && st == START
    ensures Close(Scan(st, Spell(f))) == Reading(f)
  {
    var more := Colons(f.right) + TailText(f.tail);
    ScanColons(st, f.left, ":" + more);
    if |f.left| < 8 {
      ScanElision(After(st, f.left), more);
      BehindElision(f, After(st, f.left).(zero := |After(st, f.left).out|, seen := true));
    }
  }

  lemma BehindElision(f: Form, st: State)
    requires Shaped(f) && f.elided && |f.left| < 8 && Between(st) && st.zero == |st.out| && st.seen
    requires st.out == [] + GroupBytes(f.left)
    ensures Close(Scan(st, Colons(f.right) + TailText(f.tail))) == Reading(f)
  {
    assert st.out == GroupBytes(f.left);
    ScanColons(st, f.right, TailText(f.tail));
    if |f.left| + |f.right| < 8 {
      CloseTail(After(st, f.right), f.tail);
      ElidedResult(f, After(st, f.right));
    }
  }

  lemma ElidedResult(f: Form, st: State)
    requires Shaped(f) && f.elided && |f.left| + |f.right| < 8 && st.zero == 2 * |f.left| && st.seen
    requires st.out == GroupBytes(f.left) + GroupBytes(f.right)
    ensures TailResult(st, f.tail) == Reading(f)
  {
    var l, r, t := GroupBytes(f.left), GroupBytes(f.right), TailBytes(f.tail);
    if Accepted(f) { FilledAt(l, r + t, 16 - 2 * Count(f)); }
    assert l + r + t == l + (r + t);
  }

  lemma FilledAt(l: seq<nat>, r: seq<nat>, n: nat)
    requires n > 0 && |l| + |r| + n == 16
    ensures Filled(l + r, |l|) == Some(l + (Zeros(n) + r))
  {
    var out := l + r;
    assert out[..|l|] == l && out[|l|..] == r;
    assert l + Zeros(n) + r == l + (Zeros(n) + r);
  }

  // ----- the form of a text that is read -----

  /** How many hexadecimal digits a text begins with. */
  function HexRun(s: string): (k: nat)
    ensures k <= |s| && (k < |s| ==> CharVal(s[k]) < 0)
  {
    if s != "" && CharVal(s[0]) >= 0 then 1 + HexRun(s[1..]) else 0
  }

  lemma {:induction false} RunIsHex(s: string, k: nat)
    requires k <= HexRun(s)
    ensures IsHex(s[..k])
  {
    if k > 0 {
      RunIsHex(s[1..], k - 1);
      assert s[..k] == [s[0]] + s[1..][..k - 1];
    }
  }

  lemma {:induction false} RunAt(s: string, k: nat)
    requires k < HexRun(s)
    ensures CharVal(s[k]) >= 0
  {
    if k > 0 { RunAt(s[1..], k - 1); }
  }

  /** What a text that is not refused begins with. */
  lemma Begin(st: State, s: string) returns (x: string, rest: string)
    requires Between(st) && Scan(st, s) != Fail
    ensures s == x + rest && |x| <= 4 && IsHex(x) && (rest != "" ==> rest[0] == ':' || (rest[0] == '.' && x != ""))
    ensures Scan(st, s) == Scan(st.(nibbles := |x|, word := Read(0, x, 16), since := x), rest)
  {
    var k := HexRun(s);
    if k > 4 {
      LongRun(st, s);
      assert false;
    }
    x, rest := s[..k], s[k..];
    RunIsHex(s, k);
    assert s == x + rest;
    ScanPiece(st, x, rest);
  }

  lemma LongRun(st: State, s: string)
    requires Between(st) && HexRun(s) > 4
    ensures Scan(st, s) == Fail
  {
    var x, rest := s[..4], s[4..];
    RunIsHex(s, 4);
    RunAt(s, 4);
    assert s == x + rest;
    ScanPiece(st, x, rest);
    FifthDigit(st.(nibbles := 4, word := Read(0, x, 16), since := x), rest);
  }

  lemma FifthDigit(st: State, s: string)
    requires st.nibbles == 4 && s != "" && CharVal(s[0]) >= 0
    ensures Scan(st, s) == Fail
  {
  }

  lemma {:induction false} ColonsJoin(x: string, gs: seq<string>)
    ensures Colons([x] + gs) == x + ":" + Colons(gs)
  {
    if gs == [] {
      assert [x] + gs == [x] && [x][..0] == [];
      assert "" + x + ":" == x + ":" && x + ":" + "" == x + ":";
    } else {
      var most := gs[..|gs| - 1];
      assert ([x] + gs)[..|gs|] == [x] + most;
      ColonsJoin(x, most);
      assert x + ":" + Colons(most) + gs[|gs| - 1] + ":" == x + ":" + (Colons(most) + gs[|gs| - 1] + ":");
    }
  }

  lemma PutBack(s: string, x: string, gs: seq<string>, rest: string)
    requires s == x + (":" + (Colons(gs) + rest))
    ensures s == Colons([x] + gs) + rest
  {
    ColonsJoin(x, gs);
    assert x + (":" + (Colons(gs) + rest)) == x + ":" + Colons(gs) + rest;
  }

  /** The groups up to the tail or to "::". */
  lemma {:induction false} TakeGroups(st: State, s: string) returns (gs: seq<string>, rest: string)
    requires Between(st) && |st.out| < 16 && |st.out| % 2 == 0 && Scan(st, s) != Fail
    ensures AreGroups(gs) && s == Colons(gs) + rest && |st.out| + 2 * |gs| < 16
    ensures Scan(st, s) == Scan(After(st, gs), rest)
    ensures (rest != "" && rest[0] == ':') || exists t {:trigger TailText(t)} :: IsTail(t) && rest == TailText(t)
    decreases |s|
  {
    var x, more := Begin(st, s);
    if x != "" && more != "" && more[0] == ':' {
      var s' := more[1..];
      assert more == ":" + s';
      ScanGroup(st, x, s');
      OneGroup(st, x);
      var gs';
      gs', rest := TakeGroups(After(st, [x]), s');
      gs := [x] + gs';
      GroupOne(x);
      GroupsJoin([x], gs');
      PutBack(s, x, gs', rest);
      ScanColons(st, gs, rest);
    } else {
      gs, rest := [], s;
      assert Colons(gs) + rest == rest && st.out + [] == st.out;
      if !(rest != "" && rest[0] == ':') { TailOf(st, x, more); }
    }
  }

  lemma OneGroup(st: State, x: string)
    requires Between(st)
    ensures After(st, [x]) == State(st.out + Pair(Read(0, x, 16)), st.zero, 0, 0, true, "")
  {
    assert [x][..0] == [] && [] + Pair(Read(0, x, 16)) == Pair(Read(0, x, 16));
  }

  lemma DotInside(x: string, v: string, i: nat)
    requires i < |x + v| && (x + v)[i] == '.'
    ensures i < |x| ==> '.' in x
  {
    if i < |x| { assert x[i] in x; }
  }

  /** What comes before the first dot. */
  lemma BeforeDot(a: string, u: string, x: string, v: string)
    requires a + "." + u == x + v && v != "" && v[0] == '.' && '.' !in a && '.' !in x
    ensures a == x
  {
    var s := x + v;
    assert s == a + ("." + u);
    DotInside(x, v, |a|);
    DotInside(a, "." + u, |x|);
    assert a == s[..|a|] && x == s[..|x|];
  }

  lemma NoDot(x: string)
    requires IsHex(x)
    ensures '.' !in x
  {
    assert CharVal('.') < 0;
  }

  lemma TailOf(st: State, x: string, more: string)
    requires Between(st) && |x| <= 4 && IsHex(x) && (more != "" ==> more[0] == '.' && x != "")
    requires Scan(st.(nibbles := |x|, word := Read(0, x, 16), since := x), more) != Fail
    ensures exists t {:trigger TailText(t)} :: IsTail(t) && x + more == TailText(t)
  {
    if more != "" {
      var a, b, c, d := FourParts(x + more);
      NoDot(x);
      DecimalIsHex(a);
      NoDot(a);
      BeforeDot(a, b + "." + (c + "." + d), x, more);
      assert IsTail(Dots(a, b, c, d)) && x + more == TailText(Dots(a, b, c, d));
    } else {
      assert x + more == x;
      var t := if x == "" then Nothing else Word(x);
      assert IsTail(t) && x == TailText(t);
    }
  }

  /** There is no second "::". */
  lemma SecondElision(st: State, s: string)
    requires Between(st) && st.zero >= 0 && s != "" && s[0] == ':'
    ensures Scan(st, s) == Fail
  {
  }

  lemma FormOf(s: string) returns (f: Form)
    requires Scan(START, s) != Fail
    ensures Shaped(f) && s == Spell(f)
  {
    var gs, rest := TakeGroups(START, s);
    if rest != "" && rest[0] == ':' {
      var st, s1 := After(START, gs), rest[1..];
      assert rest == ":" + s1;
      ScanElision(st, s1);
      var st1 := st.(zero := |st.out|, seen := true);
      var hs, rest1 := TakeGroups(st1, s1);
      if rest1 != "" && rest1[0] == ':' {
        SecondElision(After(st1, hs), rest1);
        assert false;
      }
      var t :| IsTail(t) && rest1 == TailText(t);
      f := Form(gs, true, hs, t);
    } else {
      var t :| IsTail(t) && rest == TailText(t);
      f := Form(gs, false, [], t);
    }
  }

  /** A text is read as an address exactly if it denotes it. */
  lemma ParseExact(text: string, v: seq<nat>)
    ensures Parse(text) == Some(v) <==> Denotes(text, v)
    ensures Denotes(text, v) ==> IsAddress(v)
  {
    if Parse(text) == Some(v) {
      var f := FormOf(Skipped(text));
      FormRead(f);
    }
    if Denotes(text, v) {
      var f :| Accepted(f) && Skipped(text) == Spell(f) && v == Meaning(f);
      FormRead(f);
      MeaningIsAddress(f);
    }
  }

  /** One colon before an address is read over. */
  lemma LeadingColon(text: string)
    requires text != "" && text[0] != ':'
    ensures Parse(":" + text) == Parse(text)
  {
    assert (":" + text)[1..] == text;
  }
}
