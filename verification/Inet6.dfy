/**
 IPv6 addresses as text: ngx_inet6_ntop of src/core/ngx_inet.c, lines 285-359, and what the reader of
 InetRead makes of what it writes.
 */
module Inet6 {
  import opened Digits
  import opened InetRead

  // ----- reading what was written -----

  function Bytes(ws: seq<nat>): seq<nat> { if ws == [] then [] else Bytes(ws[..|ws| - 1]) + Pair(ws[|ws| - 1]) }

  /** Groups, each followed by a colon. */
  function Groups(ws: seq<nat>): string {
    if ws == [] then "" else Groups(ws[..|ws| - 1]) + Text(ws[|ws| - 1], 16) + ":"
  }

  /** Groups with colons between them. */
  function Joined(ws: seq<nat>): string { if ws == [] then "" else Groups(ws[..|ws| - 1]) + Text(ws[|ws| - 1], 16) }

  ghost predicate AreWords(ws: seq<nat>) { forall i :: 0 <= i < |ws| ==> ws[i] < 0x10000 }

  lemma {:induction false} BytesLength(ws: seq<nat>)
    ensures |Bytes(ws)| == 2 * |ws|
  {
    if ws != [] { BytesLength(ws[..|ws| - 1]); }
  }

  function Pow16(k: nat): nat { if k == 0 then 1 else 16 * Pow16(k - 1) }

  lemma {:induction false} TextLength(w: nat, k: nat)
    requires w < Pow16(k) && k > 0
    ensures 1 <= |Text(w, 16)| <= k
    decreases k
  {
    if w >= 16 {
      assert k > 1;
      assert w / 16 < Pow16(k - 1);
      TextLength(w / 16, k - 1);
    }
  }

  lemma HexLength(w: nat)
    requires w < 0x10000
    ensures 1 <= |Text(w, 16)| <= 4
  {
    assert Pow16(1) == 16 && Pow16(2) == 256 && Pow16(3) == 4096;
    TextLength(w, 4);
  }

  lemma {:induction false} StartsWithDigit(ws: seq<nat>)
    requires ws != [] && AreWords(ws)
    ensures Joined(ws) != "" && Joined(ws)[0] != ':' && Groups(ws) != "" && Groups(ws)[0] != ':'
    decreases |ws|
  {
    var most, w := ws[..|ws| - 1], ws[|ws| - 1];
    TextDigits(w, 16);
    assert Text(w, 16)[0] in Text(w, 16);
    if most != [] { StartsWithDigit(most); }
  }

  /** A text with "::" for zeros between left and right. */
  function Elided(left: seq<nat>, right: seq<nat>): string {
    (if left == [] then ":" else Groups(left)) + ":" + Joined(right)
  }

  function Dotted(a: nat, b: nat, c: nat, d: nat): string {
    Text(a, 10) + "." + Text(b, 10) + "." + Text(c, 10) + "." + Text(d, 10)
  }

  lemma QuadIsNone(a: nat, b: nat, c: nat, d: nat)
    requires a < 256 && b < 256 && c < 256 && d < 256
    ensures Quad(a, b, c, d) == NONE <==> a == 255 && b == 255 && c == 255 && d == 255
  {
  }

  lemma OctetLength(a: nat)
    requires a < 256
    ensures 1 <= |Text(a, 10)| <= 3
  {
    if a >= 10 {
      if a / 10 >= 10 { assert a / 10 / 10 < 10; assert |Text(a / 10 / 10, 10)| == 1; }
      assert |Text(a / 10, 10)| <= 2;
    }
  }

  /** The groups as they are written. */
  function Texts(ws: seq<nat>): seq<string> {
    if ws == [] then [] else Texts(ws[..|ws| - 1]) + [Text(ws[|ws| - 1], 16)]
  }

  lemma WordText(w: nat)
    requires w < 0x10000
    ensures IsGroup(Text(w, 16)) && Read(0, Text(w, 16), 16) == w
  {
    HexLength(w);
    ReadText(w, 16);
    TextDigits(w, 16);
  }

  lemma {:induction false} TextsAre(ws: seq<nat>)
    requires AreWords(ws)
    ensures |Texts(ws)| == |ws| && AreGroups(Texts(ws))
    ensures Colons(Texts(ws)) == Groups(ws) && GroupBytes(Texts(ws)) == Bytes(ws)
    decreases |ws|
  {
    if ws != [] {
      var most, w := ws[..|ws| - 1], ws[|ws| - 1];
      TextsAre(most);
      WordText(w);
      GroupOne(Text(w, 16));
      GroupsJoin(Texts(most), [Text(w, 16)]);
      assert Texts(ws)[..|ws| - 1] == Texts(most);
    }
  }

  lemma ParseForm(text: string, f: Form, v: seq<nat>)
    requires text != "" && Shaped(f) && Skipped(text) == Spell(f) && (Accepted(f) ==> Meaning(f) == v)
    ensures Parse(text) == if Accepted(f) then Some(v) else None
  {
    FormRead(f);
  }

  /** A text without "::". */
  lemma ParsePlain(ws: seq<nat>)
    requires |ws| == 8 && AreWords(ws)
    ensures Parse(Joined(ws)) == Some(Bytes(ws))
  {
    var f := Form(Texts(ws[..7]), false, [], Word(Text(ws[7], 16)));
    TextsAre(ws[..7]);
    WordText(ws[7]);
    StartsWithDigit(ws);
    assert Bytes(ws) == Bytes(ws[..7]) + ([] + Pair(ws[7]));
    ParseForm(Joined(ws), f, Bytes(ws));
  }

  /** The colon that is skipped is that of a "::" at the start. */
  lemma SkippedElided(left: seq<nat>, rest: string)
    requires AreWords(left)
    ensures Skipped((if left == [] then ":" else Groups(left)) + ":" + rest) == Groups(left) + (":" + rest)
  {
    if left == [] {
      assert (":" + ":" + rest)[1..] == ":" + rest && "" + (":" + rest) == ":" + rest;
    } else {
      StartsWithDigit(left);
      assert Groups(left) + ":" + rest == Groups(left) + (":" + rest);
    }
  }

  /** A text with "::" at the end: the last two of its zeros are the word behind the colon. */
  lemma ParseElidedEnd(left: seq<nat>, n: nat)
    requires AreWords(left) && 2 * |left| + n == 16 && n >= 4
    ensures Parse(Elided(left, [])) == Some(Bytes(left) + Zeros(n))
  {
    var f := Form(Texts(left), true, [], Nothing);
    EndForm(f, left, n);
    SkippedElided(left, Joined([]));
    ParseForm(Elided(left, []), f, Bytes(left) + Zeros(n));
  }

  /** The text and the meaning of a form with "::", from those of its parts. */
  lemma ElidedForm(f: Form, l: string, r: string, x: seq<nat>, y: seq<nat>, n: nat)
    requires f.elided && 2 * Count(f) + n == 16 && Colons(f.left) == l && Colons(f.right) + TailText(f.tail) == r
    requires GroupBytes(f.left) == x && GroupBytes(f.right) + TailBytes(f.tail) == y
    ensures Spell(f) == l + (":" + r) && Meaning(f) == x + (Zeros(n) + y)
  {
  }

  lemma NothingBehind(f: Form)
    requires f.right == [] && f.tail == Nothing
    ensures Colons(f.right) + TailText(f.tail) == "" && GroupBytes(f.right) + TailBytes(f.tail) == [0, 0]
  {
  }

  lemma EndForm(f: Form, left: seq<nat>, n: nat)
    requires AreWords(left) && 2 * |left| + n == 16 && n >= 4
    requires f.left == Texts(left) && f.elided && f.right == [] && f.tail == Nothing
    ensures Accepted(f) && Spell(f) == Groups(left) + (":" + "") && Meaning(f) == Bytes(left) + Zeros(n)
  {
    TextsAre(left);
    NothingBehind(f);
    var k, x, y := n - 2, Bytes(left), GroupBytes(f.right) + TailBytes(f.tail);
    ElidedForm(f, Groups(left), "", x, y, k);
    ZerosEnd(x, k, n, y);
  }

  lemma ZerosEnd(l: seq<nat>, k: nat, n: nat, rest: seq<nat>)
    requires rest == [0, 0] && n == k + 2
    ensures l + (Zeros(k) + rest) == l + Zeros(n)
  {
    assert Zeros(k) + rest == Zeros(n);
  }

  lemma ParseElided(left: seq<nat>, right: seq<nat>, n: nat)
    requires AreWords(left) && AreWords(right) && right != [] && 4 <= n && 2 * |left| + n + 2 * |right| == 16
    ensures Parse(Elided(left, right)) == Some(Bytes(left) + Zeros(n) + Bytes(right))
  {
    var most, w := right[..|right| - 1], right[|right| - 1];
    var f := Form(Texts(left), true, Texts(most), Word(Text(w, 16)));
    MidForm(f, left, right, n);
    SkippedElided(left, Joined(right));
    ParseForm(Elided(left, right), f, Bytes(left) + Zeros(n) + Bytes(right));
  }

  lemma MidForm(f: Form, left: seq<nat>, right: seq<nat>, n: nat)
    requires AreWords(left) && AreWords(right) && right != [] && 4 <= n && 2 * |left| + n + 2 * |right| == 16
    requires f.left == Texts(left) && f.elided && f.right == Texts(right[..|right| - 1])
    requires f.tail == Word(Text(right[|right| - 1], 16))
    ensures Accepted(f) && Spell(f) == Groups(left) + (":" + Joined(right))
    ensures Meaning(f) == Bytes(left) + Zeros(n) + Bytes(right)
  {
    TextsAre(left);
    WordsBehind(f, right);
    ElidedForm(f, Groups(left), Joined(right), Bytes(left), Bytes(right), n);
    ZerosBetween(Bytes(left), Zeros(n), Bytes(right));
  }

  lemma WordsBehind(f: Form, right: seq<nat>)
    requires AreWords(right) && right != [] && f.right == Texts(right[..|right| - 1])
    requires f.tail == Word(Text(right[|right| - 1], 16))
    ensures |f.right| == |right| - 1 && AreGroups(f.right) && IsTail(f.tail)
    ensures Colons(f.right) + TailText(f.tail) == Joined(right)
    ensures GroupBytes(f.right) + TailBytes(f.tail) == Bytes(right)
  {
    TextsAre(right[..|right| - 1]);
    WordText(right[|right| - 1]);
  }

  lemma ZerosBetween(a: seq<nat>, b: seq<nat>, c: seq<nat>)
    ensures a + (b + c) == a + b + c
  {
  }

  lemma OctetText(a: nat)
    requires a < 256
    ensures 1 <= |Text(a, 10)| <= 3 && Decimal(Text(a, 10)) && Octet(Text(a, 10)) == a
  {
    OctetLength(a);
    ReadText(a, 10);
    TextDigits(a, 10);
  }

  lemma DottedIsFour(a: string, b: string, c: string, d: string)
    ensures a + "." + b + "." + c + "." + d == Four(a, b, c, d)
  {
  }

  lemma ParseDotted(mid: seq<nat>, a: nat, b: nat, c: nat, d: nat)
    requires AreWords(mid) && |mid| <= 1 && a < 256 && b < 256 && c < 256 && d < 256
    ensures Parse("::" + Groups(mid) + Dotted(a, b, c, d)) ==
      if a == 255 && b == 255 && c == 255 && d == 255 then None
        else Some(Zeros(12 - 2 * |mid|) + (Bytes(mid) + [a, b, c, d]))
  {
    var f := Form([], true, Texts(mid), Dots(Text(a, 10), Text(b, 10), Text(c, 10), Text(d, 10)));
    DotsForm(f, mid, a, b, c, d);
    QuadIsNone(a, b, c, d);
    SkippedTwo(Groups(mid), Dotted(a, b, c, d));
    ParseForm("::" + Groups(mid) + Dotted(a, b, c, d), f, Zeros(12 - 2 * |mid|) + (Bytes(mid) + [a, b, c, d]));
  }

  lemma SkippedTwo(g: string, t: string)
    ensures Skipped("::" + g + t) == "" + (":" + (g + t))
  {
    var text := "::" + g + t;
    assert text[0] == ':' && text[1..] == ":" + (g + t);
  }

  lemma DotsForm(f: Form, mid: seq<nat>, a: nat, b: nat, c: nat, d: nat)
    requires AreWords(mid) && |mid| <= 1 && a < 256 && b < 256 && c < 256 && d < 256
    requires f.left == [] && f.elided && f.right == Texts(mid)
    requires f.tail == Dots(Text(a, 10), Text(b, 10), Text(c, 10), Text(d, 10))
    ensures Shaped(f) && Count(f) <= 7 && (Accepted(f) <==> Quad(a, b, c, d) != NONE)
    ensures Spell(f) == "" + (":" + (Groups(mid) + Dotted(a, b, c, d)))
    ensures Meaning(f) == Zeros(12 - 2 * |mid|) + (Bytes(mid) + [a, b, c, d])
  {
    TextsAre(mid);
    DotsBehind(f.tail, a, b, c, d);
    var n: nat, x := 12 - 2 * |mid|, Bytes(mid) + [a, b, c, d];
    ElidedForm(f, "", Groups(mid) + Dotted(a, b, c, d), [], x, n);
    NoBytesBefore(Zeros(n) + x);
  }

  lemma DotsBehind(t: Tail, a: nat, b: nat, c: nat, d: nat)
    requires a < 256 && b < 256 && c < 256 && d < 256
    requires t == Dots(Text(a, 10), Text(b, 10), Text(c, 10), Text(d, 10))
    ensures IsTail(t) && TailText(t) == Dotted(a, b, c, d) && TailBytes(t) == [a, b, c, d]
    ensures Octet(t.a) == a && Octet(t.b) == b && Octet(t.c) == c && Octet(t.d) == d
  {
    OctetText(a);
    OctetText(b);
    OctetText(c);
    OctetText(d);
    DottedIsFour(t.a, t.b, t.c, t.d);
  }

  lemma NoBytesBefore(s: seq<nat>)
    ensures [] + s == s
  {
  }

  // ----- writing -----

  function Words(p: seq<nat>): (ws: seq<nat>)
    requires |p| == 16
    ensures |ws| == 8
  {
    seq(8, k requires 0 <= k < 8 => p[2 * k] * 256 + p[2 * k + 1])
  }

  ghost predicate IsRun(ws: seq<nat>, a: int, k: int) {
    0 <= a && 0 <= k && a + k <= |ws| && forall i :: a <= i < a + k ==> ws[i] == 0
  }

  /** The leftmost of the longest runs of at least two zero groups; z is -1 and m is 1 if there is none. */
  ghost predicate LongestRun(ws: seq<nat>, z: int, m: int) {
    && (if z < 0 then z == -1 && m == 1 else m >= 2 && IsRun(ws, z, m))
    && forall a, k {:trigger IsRun(ws, a, k)} :: IsRun(ws, a, k) && k >= 2 ==> k < m || (k == m && z <= a)
  }

  lemma RunIsUnique(ws: seq<nat>, z: int, m: int, z': int, m': int)
    requires LongestRun(ws, z, m) && LongestRun(ws, z', m')
    ensures z == z' && m == m'
  {
    if z >= 0 { assert IsRun(ws, z, m); }
    if z' >= 0 { assert IsRun(ws, z', m'); }
  }

  /** Lines 327-334: an address of the form of an IPv4 one, given the length of its first zeros. */
  predicate DottedForm(p: seq<nat>, m: int)
    requires |p| == 16
  {
    (m == 5 && p[10] == 0xff && p[11] == 0xff) || m == 6 || (m == 7 && p[14] != 0 && p[15] != 1)
  }

  /** The text for an address whose run of zeros to leave out is (z, m). */
  function Render(p: seq<nat>, z: int, m: int): string
    requires |p| == 16 && (z >= 0 ==> 0 <= m && z + m <= 8)
  {
    var ws := Words(p);
    if z < 0 then Joined(ws)
    else if z == 0 && DottedForm(p, m) then "::" + Groups(if m < 6 then ws[m..6]
        else []) + Dotted(p[12], p[13], p[14], p[15])
    else Elided(ws[..z], ws[z + m..])
  }

  // ----- the round trip -----

  lemma {:induction false} BytesJoin(a: seq<nat>, b: seq<nat>)
    ensures Bytes(a + b) == Bytes(a) + Bytes(b)
    decreases |b|
  {
    if b == [] {
      assert a + b == a && Bytes(a) + [] == Bytes(a);
    } else {
      var most := b[..|b| - 1];
      assert (a + b)[..|a + b| - 1] == a + most;
      BytesJoin(a, most);
      assert Bytes(a) + Bytes(most) + Pair(b[|b| - 1]) == Bytes(a) + Bytes(b);
    }
  }

  lemma {:induction false} BytesOfZeros(ws: seq<nat>)
    requires forall i :: 0 <= i < |ws| ==> ws[i] == 0
    ensures Bytes(ws) == Zeros(2 * |ws|)
  {
    if ws != [] {
      BytesOfZeros(ws[..|ws| - 1]);
      assert Zeros(2 * |ws| - 2) + [0, 0] == Zeros(2 * |ws|);
    }
  }

  lemma {:induction false} BytesAt(ws: seq<nat>, k: nat)
    requires k < |ws|
    ensures |Bytes(ws)| == 2 * |ws| && Bytes(ws)[2 * k] == ws[k] / 256 % 256 && Bytes(ws)[2 * k + 1] == ws[k] % 256
    decreases |ws|
  {
    BytesLength(ws);
    BytesLength(ws[..|ws| - 1]);
    if k < |ws| - 1 { BytesAt(ws[..|ws| - 1], k); }
  }

  lemma WordsBytes(p: seq<nat>)
    requires IsAddress(p)
    ensures Bytes(Words(p)) == p && AreWords(Words(p))
  {
    var ws := Words(p);
    BytesLength(ws);
    forall i | 0 <= i < 16 ensures Bytes(ws)[i] == p[i] {
      BytesAt(ws, i / 2);
      assert i == 2 * (i / 2) || i == 2 * (i / 2) + 1;
      assert (p[2 * (i / 2)] * 256 + p[2 * (i / 2) + 1]) / 256 == p[2 * (i / 2)];
    }
  }

  /** The bytes around a run of zeros. */
  lemma AroundRun(p: seq<nat>, z: nat, m: nat)
    requires IsAddress(p) && z + m <= 8 && IsRun(Words(p), z, m)
    ensures p == Bytes(Words(p)[..z]) + Zeros(2 * m) + Bytes(Words(p)[z + m..])
  {
    var ws := Words(p);
    WordsBytes(p);
    var mid := ws[z..z + m];
    assert ws == ws[..z] + mid + ws[z + m..];
    BytesJoin(ws[..z] + mid, ws[z + m..]);
    BytesJoin(ws[..z], mid);
    BytesOfZeros(mid);
  }

  lemma RoundTripEnd(p: seq<nat>, z: nat, m: nat)
    requires IsAddress(p) && z + m == 8 && m >= 2 && IsRun(Words(p), z, m)
    ensures Parse(Elided(Words(p)[..z], [])) == Some(p)
  {
    var left, n := Words(p)[..z], 2 * m;
    AroundRun(p, z, m);
    assert Words(p)[z + m..] == [];
    NoBytesBehind(Bytes(left) + Zeros(n));
    WordsBytes(p);
    ParseElidedEnd(left, n);
  }

  lemma NoBytesBehind(s: seq<nat>)
    ensures s + [] == s
  {
  }

  lemma RoundTripElided(p: seq<nat>, z: nat, m: nat)
    requires IsAddress(p) && 2 <= m && z + m <= 8 && IsRun(Words(p), z, m)
    ensures Parse(Elided(Words(p)[..z], Words(p)[z + m..])) == Some(p)
  {
    if z + m == 8 {
      RoundTripEnd(p, z, m);
      assert Words(p)[z + m..] == [];
    } else {
      RoundTripMid(p, z, m);
    }
  }

  lemma RoundTripMid(p: seq<nat>, z: nat, m: nat)
    requires IsAddress(p) && 2 <= m && z + m < 8 && IsRun(Words(p), z, m)
    ensures Parse(Elided(Words(p)[..z], Words(p)[z + m..])) == Some(p)
  {
    var ws := Words(p);
    assert AreWords(ws) by { WordsBytes(p); }
    SliceWords(ws, z);
    SliceWords(ws, z + m);
    AroundRun(p, z, m);
    ParseElided(ws[..z], ws[z + m..], 2 * m);
  }

  lemma SliceWords(ws: seq<nat>, i: nat)
    requires AreWords(ws) && i <= |ws|
    ensures AreWords(ws[..i]) && AreWords(ws[i..])
  {
  }

  lemma RoundTripDotted(p: seq<nat>, m: nat)
    requires IsAddress(p) && IsRun(Words(p), 0, m) && DottedForm(p, m) && 5 <= m <= 7
    ensures Parse(Render(p, 0, m)) == if p[12] == 255 && p[13] == 255 && p[14] == 255 && p[15] == 255 then None
            else Some(p)
  {
    var ws := Words(p);
    var mid := if m < 6 then ws[m..6] else [];
    WordsBytes(p);
    ParseDotted(mid, p[12], p[13], p[14], p[15]);
    DottedBytes(p, m);
  }

  lemma DottedBytes(p: seq<nat>, m: nat)
    requires IsAddress(p) && IsRun(Words(p), 0, m) && 5 <= m <= 7
    ensures var mid := if m < 6 then Words(p)[m..6] else [];
            p == Zeros(12 - 2 * |mid|) + (Bytes(mid) + [p[12], p[13], p[14], p[15]])
  {
    var k := if m < 6 then m else 6;
    assert IsRun(Words(p), 0, k);
    BehindZeros(p, k);
    SplitAtSix(Words(p), k);
    LastBytes(p);
    assert m >= 6 ==> Words(p)[k..6] == [];
  }

  lemma BehindZeros(p: seq<nat>, k: nat)
    requires IsAddress(p) && IsRun(Words(p), 0, k) && k <= 6
    ensures p == Zeros(2 * k) + Bytes(Words(p)[k..])
  {
    AroundRun(p, 0, k);
    assert Words(p)[..0] == [] && [] + Zeros(2 * k) == Zeros(2 * k);
  }

  lemma SplitAtSix(ws: seq<nat>, k: nat)
    requires |ws| == 8 && k <= 6
    ensures Bytes(ws[k..]) == Bytes(ws[k..6]) + Bytes(ws[6..])
  {
    assert ws[k..] == ws[k..6] + ws[6..];
    BytesJoin(ws[k..6], ws[6..]);
  }

  lemma LastBytes(p: seq<nat>)
    requires IsAddress(p)
    ensures Bytes(Words(p)[6..]) == [p[12], p[13], p[14], p[15]]
  {
    var ws := Words(p);
    WordsBytes(p);
    assert ws == ws[..6] + ws[6..];
    BytesJoin(ws[..6], ws[6..]);
    BytesLength(ws[..6]);
    assert Bytes(ws[6..]) == p[12..];
  }

  /**
   Reading what was written gives the address back, with one exception: an address written in
   dotted form whose last four bytes are 255.255.255.255 is refused.
   */
  lemma RoundTrip(p: seq<nat>, z: int, m: int)
    requires IsAddress(p) && LongestRun(Words(p), z, m)
    ensures z >= 0 ==> m >= 2 && z + m <= 8
    ensures Parse(Render(p, z, m)) ==
      if z == 0 && DottedForm(p, m) && p[12] == 255 && p[13] == 255 && p[14] == 255 && p[15] == 255 then None
        else Some(p)
  {
    WordsBytes(p);
    if z < 0 {
      ParsePlain(Words(p));
    } else if z == 0 && DottedForm(p, m) {
      RoundTripDotted(p, m);
    } else {
      RoundTripElided(p, z, m);
    }
  }

  // ----- ngx_inet6_ntop -----

  /** The words before k are looked at: n zeros end there, and (z, max) is the best run before those. */
  ghost predicate Looking(ws: seq<nat>, k: int, n: int, z: int, max: int) {
    && 0 <= n <= k <= |ws| && IsRun(ws, k - n, n) && (k - n > 0 ==> ws[k - n - 1] != 0)
    && (if z < 0 then z == -1 && max == 1 else max >= 2 && IsRun(ws, z, max) && z + max <= k - n)
    && forall a, l {:trigger IsRun(ws, a, l)} :: IsRun(ws, a, l) && l >= 2 && a + l <= k - n ==>
       l < max || (l == max && z <= a)
  }

  /** The run of zeros that just ended is taken if it is longer. */
  lemma RunEnds(ws: seq<nat>, k: int, n: int, z: int, max: int)
    requires Looking(ws, k, n, z, max) && (k == |ws| || ws[k] != 0)
    ensures var z', max' := if max < n then k - n else z, if max < n then n else max;
      && (if z' < 0 then z' == -1 && max' == 1 else max' >= 2 && IsRun(ws, z', max') && z' + max' <= k)
      && forall a, l {:trigger IsRun(ws, a, l)} :: IsRun(ws, a, l) && l >= 2 && a + l <= k ==>
         l < max' || (l == max' && z' <= a)
  {
    var z', max' := if max < n then k - n else z, if max < n then n else max;
    forall a, l | IsRun(ws, a, l) && l >= 2 && a + l <= k ensures l < max' || (l == max' && z' <= a) {
      assert forall i :: a <= i < a + l ==> ws[i] == 0;
    }
  }

  lemma LookOn(ws: seq<nat>, k: int, n: int, z: int, max: int)
    requires Looking(ws, k, n, z, max) && k < |ws|
    ensures ws[k] == 0 ==> Looking(ws, k + 1, n + 1, z, max)
    ensures ws[k] != 0 ==> Looking(ws, k + 1, 0, if max < n then k - n else z, if max < n then n else max)
  {
    if ws[k] != 0 {
      RunEnds(ws, k, n, z, max);
      var z', max' := if max < n then k - n else z, if max < n then n else max;
      forall a, l | IsRun(ws, a, l) && l >= 2 && a + l <= k + 1 ensures l < max' || (l == max' && z' <= a) {
        assert forall i :: a <= i < a + l ==> ws[i] == 0;
      }
    }
  }

  lemma WordIsZero(p: seq<nat>, k: nat)
    requires IsAddress(p) && k < 8
    ensures Words(p)[k] == 0 <==> p[2 * k] == 0 && p[2 * k + 1] == 0
  {
  }

  /** Lines 296-322; zero is the index of a byte, z that of a group. */
  method FindRun(p: seq<nat>) returns (zero: int, max: int, ghost z: int)
    requires IsAddress(p)
    ensures LongestRun(Words(p), z, max) && zero == if z < 0 then -1 else 2 * z
  {
    ghost var ws, k := Words(p), 0;
    zero, max, z := -1, 1, -1;
    var last, n, i := -1, 0, 0;
    while i < 16
      invariant i == 2 * k && 0 <= k <= 8 && zero == (if z < 0 then -1 else 2 * z) && (n > 0 ==> last == i - 2 * n)
      invariant Looking(ws, k, n, z, max)
    {
      LookOn(ws, k, n, z, max);
      WordIsZero(p, k);
      if p[i] != 0 || p[i + 1] != 0 {
        if max < n {
          zero := last;
          max := n;
          z := k - n;
        }
        n := 0;
      } else {
        if n == 0 {
          last := i;
        }
        n := n + 1;
      }
      i := i + 2;
      k := k + 1;
    }
    RunEnds(ws, 8, n, z, max);
    if max < n {
      zero := last;
      max := n;
      z := 8 - n;
    }
  }

  /** The text before group k, all at once. */
  function Shape(ws: seq<nat>, z: int, m: int, k: nat): string
    requires |ws| == 8 && k <= 8 && (z >= 0 ==> 0 <= m && z + m <= 8 && (k <= z || z + m <= k))
  {
    if z < 0 || k <= z then
      (if z == 0 then ":" else "") + if k == 8 then Joined(ws) else Groups(ws[..k])
    else
      (if z == 0 then ":" else Groups(ws[..z])) + ":" + if k == 8 then Joined(ws[z + m..]) else Groups(ws[z + m..k])
  }

  lemma ShapeStep(ws: seq<nat>, z: int, m: int, k: nat)
    requires |ws| == 8 && k < 8 && (z >= 0 ==> 2 <= m && z + m <= 8 && (k < z || z + m <= k))
    ensures Shape(ws, z, m, k + 1) == Shape(ws, z, m, k) + Text(ws[k], 16) + if k < 7 then ":" else ""
  {
    if z < 0 || k < z { StepBefore(ws, z, m, k); } else { StepAfter(ws, z, m, k); }
  }

  lemma StepBefore(ws: seq<nat>, z: int, m: int, k: nat)
    requires |ws| == 8 && k < 8 && (z >= 0 ==> 2 <= m && z + m <= 8 && k < z)
    ensures Shape(ws, z, m, k + 1) == Shape(ws, z, m, k) + Text(ws[k], 16) + if k < 7 then ":" else ""
  {
    var h, x := if z == 0 then ":" else "", ws[..k];
    assert ws[..k + 1] == x + [ws[k]] && ws[..8] == ws;
    GroupsMore(h, x, ws[k]);
  }

  lemma StepAfter(ws: seq<nat>, z: nat, m: nat, k: nat)
    requires |ws| == 8 && 2 <= m && z + m <= k < 8
    ensures Shape(ws, z, m, k + 1) == Shape(ws, z, m, k) + Text(ws[k], 16) + if k < 7 then ":" else ""
  {
    if k < 7 { StepMid(ws, z, m, k); } else { StepEnd(ws, z, m); }
  }

  lemma StepMid(ws: seq<nat>, z: nat, m: nat, k: nat)
    requires |ws| == 8 && 2 <= m && z + m <= k < 7
    ensures Shape(ws, z, m, k + 1) == Shape(ws, z, m, k) + Text(ws[k], 16) + ":"
  {
    var x := ws[z + m..k];
    assert ws[z + m..k + 1] == x + [ws[k]];
    GroupsMore(Elision(ws, z), x, ws[k]);
  }

  lemma StepEnd(ws: seq<nat>, z: nat, m: nat)
    requires |ws| == 8 && 2 <= m && z + m <= 7
    ensures Shape(ws, z, m, 8) == Shape(ws, z, m, 7) + Text(ws[7], 16) + ""
  {
    var x := ws[z + m..7];
    assert ws[z + m..] == x + [ws[7]];
    GroupsMore(Elision(ws, z), x, ws[7]);
  }

  lemma GroupsMore(h: string, x: seq<nat>, w: nat)
    ensures h + Groups(x + [w]) == h + Groups(x) + Text(w, 16) + ":"
    ensures h + Joined(x + [w]) == h + Groups(x) + Text(w, 16) + ""
  {
    assert (x + [w])[..|x|] == x;
    Regroup(h, Groups(x), Text(w, 16), ":");
    Regroup(h, Groups(x), Text(w, 16), "");
  }

  /** The text up to and with "::". */
  function Elision(ws: seq<nat>, z: nat): string
    requires z <= |ws|
  {
    (if z == 0 then ":" else Groups(ws[..z])) + ":"
  }

  lemma Regroup(h: string, g: string, t: string, c: string)
    ensures h + (g + t + c) == h + g + t + c && (c == "" ==> h + (g + t) == h + g + t + c)
  {
    assert c == "" ==> h + (g + t) == h + g + t + c;
  }

  lemma ShapeSkip(ws: seq<nat>, z: nat, m: nat)
    requires |ws| == 8 && 2 <= m && z + m <= 8
    ensures Shape(ws, z, m, z + m) == Shape(ws, z, m, z) + ":"
  {
    assert ws[z + m..z + m] == [] && (z + m == 8 ==> ws[z + m..] == []);
    assert z == 0 ==> ws[..z] == [];
  }

  /** The text before group k, as the loop writes it. */
  function Sofar(ws: seq<nat>, z: int, m: int, k: nat): string
    requires |ws| == 8 && k <= 8 && (z >= 0 ==> 2 <= m && z + m <= 8 && (k <= z || z + m <= k))
    decreases k
  {
    if k == 0 then if z == 0 then ":" else ""
    else if z >= 0 && k == z + m then Sofar(ws, z, m, z) + ":"
    else Sofar(ws, z, m, k - 1) + Text(ws[k - 1], 16) + if k < 8 then ":" else ""
  }

  lemma {:induction false} SofarIs(ws: seq<nat>, z: int, m: int, k: nat)
    requires |ws| == 8 && k <= 8 && (z >= 0 ==> 2 <= m && z + m <= 8 && (k <= z || z + m <= k))
    ensures Sofar(ws, z, m, k) == Shape(ws, z, m, k)
    decreases k
  {
    if k == 0 {
      assert ws[..0] == [];
    } else if z >= 0 && k == z + m {
      SofarIs(ws, z, m, z);
      ShapeSkip(ws, z, m);
    } else {
      SofarIs(ws, z, m, k - 1);
      ShapeStep(ws, z, m, k - 1);
    }
  }

  /** ngx_inet6_ntop; the result is the text, empty if there is not room for any address. */
  method Ntop(p: seq<nat>, room: nat) returns (text: string, ghost z: int, ghost m: int)
    requires IsAddress(p)
    ensures LongestRun(Words(p), z, m) && (z >= 0 ==> 0 <= m && z + m <= 8)
    ensures text == if room < 45 then "" else Render(p, z, m)
  {
    var zero, max;
    zero, max, z := FindRun(p);
    m := max;
    assert z >= 0 ==> IsRun(Words(p), z, m);
    if room < 45 {
      return "", z, m;
    }
    var n := 16;
    if zero == 0 {
      if (max == 5 && p[10] == 0xff && p[11] == 0xff) || max == 6 || (max == 7 && p[14] != 0 && p[15] != 1) {
        n := 12;
      }
    }
    text := WriteGroups(p, zero, max, n, z);
    if n == 12 {
      DottedIs(Words(p), m);
      text := text + Dotted(p[12], p[13], p[14], p[15]);
    } else {
      SofarEnd(Words(p), z, m);
    }
  }

  /** Where the loop of lines 339-352 ends. */
  function Stop(n: int, m: int): nat { if n == 16 then 8 else if m == 7 then 7 else 6 }

  /** Lines 336-352 */
  method WriteGroups(p: seq<nat>, zero: int, max: int, n: int, ghost z: int) returns (text: string)
    requires IsAddress(p) && (if z < 0 then z == -1 && zero < 0 else zero == 2 * z && 2 <= max && z + max <= 8)
    requires n == 16 || (n == 12 && zero == 0 && 5 <= max <= 7)
    ensures text == Sofar(Words(p), z, max, Stop(n, max))
  {
    ghost var ws, k := Words(p), 0;
    text := if zero == 0 then ":" else "";
    var i := 0;
    while i < n
      invariant i == 2 * k && 0 <= k <= Stop(n, max) && Outside(z, max, k) && text == Sofar(ws, z, max, k)
      decreases 16 - i
    {
      i, text, k := WriteNext(p, i, zero, max, text, ws, k, z);
    }
    assert k == Stop(n, max);
  }

  /** Group k is not inside the run. */
  ghost predicate Outside(z: int, m: int, k: int) { z >= 0 ==> k <= z || z + m <= k }

  /** Lines 341-351: one turn of the loop. */
  method WriteNext(p: seq<nat>, i: int, zero: int, max: int, dst: string, ghost ws: seq<nat>, ghost k: nat,
                   ghost z: int)
      returns (i': int, text: string, ghost k': nat)
    requires IsAddress(p) && ws == Words(p) && i == 2 * k && k < 8 && Outside(z, max, k)
    requires if z < 0 then z == -1 && zero < 0 else zero == 2 * z && 2 <= max && z + max <= 8
    requires dst == Sofar(ws, z, max, k)
    ensures i' == 2 * k' && k' == (if k == z then k + max else k + 1) && k' <= 8 && Outside(z, max, k')
    ensures text == Sofar(ws, z, max, k')
  {
    if i == zero {
      SofarSkips(ws, z, max);
      return i + (max - 1) * 2 + 2, dst + ":", k + max;
    }
    SofarGrows(ws, z, max, k);
    text := WriteGroup(p, i, dst, k);
    return i + 2, text, k + 1;
  }

  lemma SofarSkips(ws: seq<nat>, z: nat, m: int)
    requires |ws| == 8 && 2 <= m && z + m <= 8
    ensures Sofar(ws, z, m, z + m) == Sofar(ws, z, m, z) + ":"
  {
  }

  lemma SofarGrows(ws: seq<nat>, z: int, m: int, k: nat)
    requires |ws| == 8 && k < 8 && (z >= 0 ==> 2 <= m && z + m <= 8 && (k < z || z + m <= k))
    ensures Sofar(ws, z, m, k + 1) == Sofar(ws, z, m, k) + Text(ws[k], 16) + if k < 7 then ":" else ""
  {
  }

  /** Lines 347-351 */
  method WriteGroup(p: seq<nat>, i: int, dst: string, ghost k: nat) returns (text: string)
    requires IsAddress(p) && i == 2 * k && k < 8
    ensures text == dst + Text(Words(p)[k], 16) + if k < 7 then ":" else ""
  {
    text := dst + Text(p[i] * 256 + p[i + 1], 16);
    if i < 14 {
      text := text + ":";
    }
  }

  lemma SofarEnd(ws: seq<nat>, z: int, m: int)
    requires |ws| == 8 && (z >= 0 ==> 2 <= m && z + m <= 8)
    ensures Sofar(ws, z, m, 8) == if z < 0 then Joined(ws) else Elided(ws[..z], ws[z + m..])
  {
    SofarIs(ws, z, m, 8);
    assert z == 0 ==> ws[..z] == [];
    assert z < 0 ==> "" + Joined(ws) == Joined(ws);
  }

  lemma DottedIs(ws: seq<nat>, m: int)
    requires |ws| == 8 && 5 <= m <= 7
    ensures Sofar(ws, 0, m, Stop(12, m)) == "::" + Groups(if m < 6 then ws[m..6] else [])
  {
    SofarIs(ws, 0, m, Stop(12, m));
    assert m >= 6 ==> ws[m..Stop(12, m)] == [];
    assert ":" + ":" == "::";
  }

  /** ::ffff:255.255.255.255 is written in dotted form and not read back. */
  lemma BroadcastIsRefused()
    ensures var p := [0, 0, 0, 0, 0, 0, 0, 0, 0, 0, 255, 255, 255, 255, 255, 255];
      IsAddress(p) && LongestRun(Words(p), 0, 5) && Parse(Render(p, 0, 5)) == None
  {
    var p := [0, 0, 0, 0, 0, 0, 0, 0, 0, 0, 255, 255, 255, 255, 255, 255];
    var ws := Words(p);
    assert ws == [0, 0, 0, 0, 0, 0xffff, 0xffff, 0xffff];
    forall a, k | IsRun(ws, a, k) && k >= 2 ensures k < 5 || (k == 5 && 0 <= a) {
      assert forall i :: a <= i < a + k ==> ws[i] == 0;
      assert ws[5] != 0 && ws[6] != 0 && ws[7] != 0;
    }
    assert IsRun(ws, 0, 5);
    RoundTrip(p, 0, 5);
  }

  // ----- writing and reading -----

  function Ones(n: nat): seq<nat> { seq(n, _ => 255) }

  /** ::255.255.255.255 and ::ffff:255.255.255.255 */
  predicate Broadcast(p: seq<nat>) { p == Zeros(12) + Ones(4) || p == Zeros(10) + Ones(6) }

  /** These two are written in dotted form; only these are, of the addresses that end with 255.255.255.255. */
  lemma BroadcastExact(p: seq<nat>, z: int, m: int)
    requires IsAddress(p) && LongestRun(Words(p), z, m)
    ensures z == 0 && DottedForm(p, m) && p[12] == 255 && p[13] == 255 && p[14] == 255 && p[15] == 255 <==> Broadcast(p)
  {
    if p[12] == 255 && p[13] == 255 && p[14] == 255 && p[15] == 255 {
      var ws := Words(p);
      assert ws[6] != 0 && ws[7] != 0;
      if z == 0 && DottedForm(p, m) {
        assert IsRun(ws, z, m) && m <= 6;
        FirstZeros(p, m);
      }
      if Broadcast(p) { BroadcastRun(p, z, m); }
    }
  }

  lemma FirstZeros(p: seq<nat>, m: nat)
    requires IsAddress(p) && IsRun(Words(p), 0, m)
    ensures p[..2 * m] == Zeros(2 * m)
  {
    forall i | 0 <= i < 2 * m ensures p[i] == 0 { assert Words(p)[i / 2] == 0; }
  }

  lemma BroadcastRun(p: seq<nat>, z: int, m: int)
    requires IsAddress(p) && LongestRun(Words(p), z, m) && Broadcast(p)
    ensures z == 0 && DottedForm(p, m)
  {
    var ws := Words(p);
    var k := if p[10] == 0 then 6 else 5;
    assert IsRun(ws, 0, k);
    assert IsRun(ws, z, m) && ws[6] != 0 && ws[7] != 0 && (k == 5 ==> ws[5] != 0);
  }

  /** An address that is written and read is the same, unless it is one of the two that are refused. */
  method WriteAndRead(p: seq<nat>, room: nat) returns (r: Option<seq<nat>>)
    requires IsAddress(p)
    ensures room >= 45 ==> r == if Broadcast(p) then None else Some(p)
    ensures room < 45 ==> r == None
  {
    var text;
    ghost var z, m;
    text, z, m := Ntop(p, room);
    r := Inet6Addr(text);
    RoundTrip(p, z, m);
    BroadcastExact(p, z, m);
  }
}
