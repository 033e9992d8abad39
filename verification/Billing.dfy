/**
 The billing aggregator, sm_rtmp_billing/rtmpbillingd.c: records of traffic per channel are
 parsed, added up in a table of slots, and written to a file from time to time.
 */
module Billing {
  import opened Digits

  const WORD := 0x1_0000_0000_0000_0000    // unsigned long
  const UINT := 0x1_0000_0000              // unsigned int

  /** ChannelName: the characters before the NUL. */
  datatype Channel = Channel(name: string)

  /** struct billing_data */
  datatype Record = Record(timestamp: nat, interval: nat, channel: Channel, fromClient: nat, toClient: nat)

  const EMPTY := Record(0, 0, Channel(""), 0, 0)

  // ----- one line -----

  /** "%d" of an unsigned int: large values come out negative. */
  function PrintInt(x: nat): string { if x < UINT / 2 || UINT <= x then Text(x, 10) else "-" + Text(UINT - x, 10) }

  predicate IsDigit(c: char) { '0' <= c <= '9' }

  /** The digits that s starts with. */
  function Leading(s: string): string { if s != "" && IsDigit(s[0]) then [s[0]] + Leading(s[1..]) else "" }

  /** What strtol reads: spaces, a sign, digits. */
  function Number(s: string): int {
    if s != "" && (s[0] == ' ' || '\t' <= s[0] <= '\r') then Number(s[1..])
    else if s != "" && s[0] == '-' then 0 - Read(0, Leading(s[1..]), 10) as int
    else if s != "" && s[0] == '+' then Read(0, Leading(s[1..]), 10)
    else Read(0, Leading(s), 10)
  }

  /** atoi, stored in an unsigned int */
  function Atoi(s: string): nat { Number(s) % UINT }

  /** strtoul */
  function Strtoul(s: string): nat { if Number(s) >= WORD then WORD - 1 else Number(s) % WORD }

  /** The line that the flush writes. */
  function Format(r: Record): string {
    PrintInt(r.timestamp) + "\t" + PrintInt(r.interval) + "\t" + r.channel.name + "\t" + Text(r.fromClient,
        10) + "\t" + Text(r.toClient, 10) + "\n"
  }

  /** A field has characters and none of them separates fields or lines. */
  ghost predicate IsField(s: string) { s != "" && '\t' !in s && '\n' !in s }

  /** A record that occupies the slot it is stored in. */
  ghost predicate Storable(r: Record) {
    && 0 < r.timestamp < UINT && r.interval < UINT && r.channel.name != ""
    && r.fromClient < WORD && r.toClient < WORD
  }

  /** It can also be written as a line of five fields. */
  ghost predicate WellFormed(r: Record) { Storable(r) && IsField(r.channel.name) }

  // ----- fields -----

  predicate Separates(c: char) { c == '\t' || c == '\n' }

  /** Past the tabs at i. */
  function SkipTabs(buf: string, i: nat): (r: nat)
    requires i <= |buf|
    ensures i <= r <= |buf|
    decreases |buf| - i
  {
    if i < |buf| && buf[i] == '\t' then SkipTabs(buf, i + 1) else i
  }

  /** The end of the field at i. */
  function FieldEnd(buf: string, i: nat): (r: nat)
    requires i <= |buf|
    ensures i <= r <= |buf|
    decreases |buf| - i
  {
    if i < |buf| && !Separates(buf[i]) then FieldEnd(buf, i + 1) else i
  }

  /** The end of the line at i. */
  function LineEnd(buf: string, i: nat): (r: nat)
    requires i <= |buf|
    ensures i <= r <= |buf|
    decreases |buf| - i
  {
    if i < |buf| && buf[i] != '\n' then LineEnd(buf, i + 1) else i
  }

  /** The fields of the line from i on. */
  function Fields(buf: string, i: nat): seq<string>
    requires i <= |buf|
    decreases |buf| - i
  {
    if i == |buf| || buf[i] == '\n' then []
    else
      var a := SkipTabs(buf, i);
      var b := FieldEnd(buf, a);
      if b == i then [] else [buf[a..b]] + Fields(buf, b)
  }

  /** The record in five fields; otherwise what was there stays. */
  function Filled(f: seq<string>, before: Record): Record {
    if |f| == 5 then Record(Atoi(f[0]), Atoi(f[1]), Channel(f[2]), Strtoul(f[3]), Strtoul(f[4])) else before
  }

  /** Lines 352-378: over tabs, then to the end of the field. */
  method NextField(buf: string, start: nat) returns (ps1: nat, ps2: nat)
    requires start <= |buf| && LineEnd(buf, start) < |buf| && buf[start] != '\n'
    ensures ps1 == SkipTabs(buf, start) && ps2 == FieldEnd(buf, ps1) && start < ps2 < |buf| &&
            LineEnd(buf, ps2) == LineEnd(buf, start)
  {
    ps1 := start;
    while buf[ps1] == '\t'
      invariant start <= ps1 < |buf| && SkipTabs(buf, start) == SkipTabs(buf, ps1) &&
                LineEnd(buf, ps1) == LineEnd(buf, start)
      decreases |buf| - ps1
    {
      ps1 := ps1 + 1;
    }
    ps2 := ps1;
    while buf[ps2] != '\t' && buf[ps2] != '\n'
      invariant ps1 <= ps2 < |buf| && FieldEnd(buf, ps1) == FieldEnd(buf, ps2) &&
                LineEnd(buf, ps2) == LineEnd(buf, start)
      decreases |buf| - ps2
    {
      ps2 := ps2 + 1;
    }
  }

  /** parse_billingd on the buffer from start on, which holds the end of a line. */
  method ParseBillingd(buf: string, start: nat, data0: Record) returns (size: nat, data: Record)
    requires start <= |buf| && LineEnd(buf, start) < |buf|
    ensures size == LineEnd(buf, start) - start + 1 && data == Filled(Fields(buf, start), data0)
  {
    var ps: seq<string> := [];
    var ps1 := start;
    while buf[ps1] != '\n'
      invariant start <= ps1 < |buf| && LineEnd(buf, ps1) == LineEnd(buf, start) &&
                Fields(buf, start) == ps + Fields(buf, ps1)
      decreases |buf| - ps1
    {
      var a, b := NextField(buf, ps1);
      Snoc(ps, buf[a..b], Fields(buf, b));
      ps := ps + [buf[a..b]];
      ps1 := b;
    }
    size := ps1 - start + 1;
    assert ps + [] == ps;
    data := Filled(ps, data0);
  }

  lemma Snoc(ps: seq<string>, f: string, rest: seq<string>)
    ensures ps + ([f] + rest) == ps + [f] + rest
  {
  }

  // ----- a line read back -----

  lemma {:induction false} LeadingDigits(s: string)
    requires forall c :: c in s ==> IsDigit(c)
    ensures Leading(s) == s
  {
    if s != "" {
      assert s[0] in s;
      LeadingDigits(s[1..]);
      assert [s[0]] + s[1..] == s;
    }
  }

  lemma TextIsDigits(n: nat)
    ensures Text(n, 10) != "" && forall c :: c in Text(n, 10) ==> IsDigit(c)
  {
    TextDigits(n, 10);
  }

  lemma NumberOfText(n: nat)
    ensures Number(Text(n, 10)) == n && Number("-" + Text(n, 10)) == 0 - n as int
  {
    TextIsDigits(n);
    LeadingDigits(Text(n, 10));
    ReadText(n, 10);
    assert Text(n, 10)[0] in Text(n, 10);
    assert ("-" + Text(n, 10))[1..] == Text(n, 10);
  }

  lemma IntBack(x: nat)
    requires x < UINT
    ensures Atoi(PrintInt(x)) == x && IsField(PrintInt(x))
  {
    NumberOfText(x);
    NumberOfText(UINT - x);
    TextIsDigits(x);
    TextIsDigits(UINT - x);
  }

  lemma LongBack(n: nat)
    requires n < WORD
    ensures Strtoul(Text(n, 10)) == n && IsField(Text(n, 10))
  {
    NumberOfText(n);
    TextIsDigits(n);
  }

  /** The text x is at i. */
  ghost predicate Sits(buf: string, i: nat, x: string) { i + |x| <= |buf| && buf[i..i + |x|] == x }

  lemma SitsSplit(buf: string, i: nat, x: string, y: string)
    requires Sits(buf, i, x + y)
    ensures Sits(buf, i, x) && Sits(buf, i + |x|, y)
  {
    var n, m := |x|, |y|;
    assert buf[i..i + n] == buf[i..i + n + m][..n] == (x + y)[..n] == x;
    assert buf[i + n..i + n + m] == buf[i..i + n + m][n..] == (x + y)[n..] == y;
  }

  lemma {:induction false} FieldEndIs(buf: string, i: nat, j: nat)
    requires i <= j < |buf| && Separates(buf[j]) && forall k :: i <= k < j ==> !Separates(buf[k])
    ensures FieldEnd(buf, i) == j
    decreases j - i
  {
    if i < j { FieldEndIs(buf, i + 1, j); }
  }

  lemma {:induction false} LineEndIs(buf: string, i: nat, j: nat)
    requires i <= j < |buf| && buf[j] == '\n' && forall k :: i <= k < j ==> buf[k] != '\n'
    ensures LineEnd(buf, i) == j
    decreases j - i
  {
    if i < j { LineEndIs(buf, i + 1, j); }
  }

  lemma FieldChars(buf: string, i: nat, f: string)
    requires Sits(buf, i, f) && IsField(f)
    ensures forall k :: i <= k < i + |f| ==> !Separates(buf[k])
  {
    forall k | i <= k < i + |f| ensures !Separates(buf[k]) {
      assert buf[k] == buf[i..i + |f|][k - i] && f[k - i] in f;
    }
  }

  /** The field f at i, or behind a tab at i, is read, and the end of its line is that of what follows. */
  lemma FieldAt(buf: string, i: nat, tab: nat, f: string)
    requires tab <= 1 && IsField(f) && Sits(buf, i + tab, f) && i + tab + |f| < |buf| &&
             Separates(buf[i + tab + |f|]) && (tab == 1 ==> buf[i] == '\t')
    ensures Fields(buf, i) == [f] + Fields(buf, i + tab + |f|) && LineEnd(buf, i) == LineEnd(buf, i + tab + |f|)
  {
    var a, b := i + tab, i + tab + |f|;
    FieldChars(buf, a, f);
    assert !Separates(buf[a]);
    assert SkipTabs(buf, i) == a;
    FieldEndIs(buf, a, b);
    SameLine(buf, i, b);
  }

  lemma {:induction false} SameLine(buf: string, i: nat, j: nat)
    requires i <= j <= |buf| && forall k :: i <= k < j ==> buf[k] != '\n'
    ensures LineEnd(buf, i) == LineEnd(buf, j)
    decreases j - i
  {
    if i < j { SameLine(buf, i + 1, j); }
  }

  /** What is read from i on. */
  ghost predicate Reads(buf: string, i: nat, fields: seq<string>, end: nat) {
    i < |buf| && Separates(buf[i]) && Fields(buf, i) == fields && LineEnd(buf, i) == end
  }

  lemma ReadsMore(buf: string, i: nat, f: string, fields: seq<string>, end: nat)
    requires IsField(f) && Sits(buf, i, "\t" + f) && Reads(buf, i + 1 + |f|, fields, end)
    ensures Reads(buf, i, [f] + fields, end)
  {
    SitsSplit(buf, i, "\t", f);
    assert buf[i] == buf[i..i + 1][0];
    FieldAt(buf, i, 1, f);
  }

  /** Where the fields of a line sit. */
  lemma FiveSit(buf: string, i: nat, f0: string, f1: string, f2: string, f3: string, f4: string)
    requires Sits(buf, i, f0 + "\t" + f1 + "\t" + f2 + "\t" + f3 + "\t" + f4 + "\n")
    ensures var p1 := i + |f0|; var p2 := p1 + 1 + |f1|; var p3 := p2 + 1 + |f2|; var p4 := p3 + 1 + |f3|;
            var p5 := p4 + 1 + |f4|;
      && Sits(buf, i, f0) && Sits(buf, p1, "\t" + f1) && Sits(buf, p2, "\t" + f2) && Sits(buf, p3, "\t" + f3) &&
         Sits(buf, p4, "\t" + f4)
      && Sits(buf, p5, "\n")
  {
    var g1, g2, g3, g4 := "\t" + f1, "\t" + f2, "\t" + f3, "\t" + f4;
    Glue5(f0, f1, f2, f3, f4);
    SitsSplit(buf, i, f0 + g1 + g2 + g3 + g4, "\n");
    SitsSplit(buf, i, f0 + g1 + g2 + g3, g4);
    SitsSplit(buf, i, f0 + g1 + g2, g3);
    SitsSplit(buf, i, f0 + g1, g2);
    SitsSplit(buf, i, f0, g1);
  }

  lemma Glue5(f0: string, f1: string, f2: string, f3: string, f4: string)
    ensures f0 + "\t" + f1 + "\t" + f2 + "\t" + f3 + "\t" + f4 + "\n"
         == f0 + ("\t" + f1) + ("\t" + f2) + ("\t" + f3) + ("\t" + f4) + "\n"
  {
    Glue(f0, f1);
    var a1 := f0 + "\t" + f1;
    Glue(a1, f2);
    var a2 := a1 + "\t" + f2;
    Glue(a2, f3);
    Glue(a2 + "\t" + f3, f4);
  }

  lemma Glue(a: string, f: string)
    ensures a + "\t" + f == a + ("\t" + f)
  {
  }

  lemma FiveFields(buf: string, i: nat, f0: string, f1: string, f2: string, f3: string, f4: string)
    requires IsField(f0) && IsField(f1) && IsField(f2) && IsField(f3) && IsField(f4)
    requires Sits(buf, i, f0 + "\t" + f1 + "\t" + f2 + "\t" + f3 + "\t" + f4 + "\n")
    ensures Fields(buf, i) == [f0, f1, f2, f3, f4] && LineEnd(buf, i) == i + |f0| + |f1| + |f2| + |f3| + |f4| + 4
  {
    FiveSit(buf, i, f0, f1, f2, f3, f4);
    var p1 := i + |f0|;
    FourMore(buf, p1, f1, f2, f3, f4);
    FirstField(buf, i, f0, [f1] + ([f2] + ([f3] + ([f4] + []))), p1 + |f1| + |f2| + |f3| + |f4| + 4);
    assert [f0] + ([f1] + ([f2] + ([f3] + ([f4] + [])))) == [f0, f1, f2, f3, f4];
  }

  lemma FirstField(buf: string, i: nat, f: string, fields: seq<string>, end: nat)
    requires IsField(f) && Sits(buf, i, f) && Reads(buf, i + |f|, fields, end)
    ensures Fields(buf, i) == [f] + fields && LineEnd(buf, i) == end
  {
    FieldAt(buf, i, 0, f);
  }

  lemma FourMore(buf: string, p1: nat, f1: string, f2: string, f3: string, f4: string)
    requires IsField(f1) && IsField(f2) && IsField(f3) && IsField(f4)
    requires var p2 := p1 + 1 + |f1|; var p3 := p2 + 1 + |f2|; var p4 := p3 + 1 + |f3|; var p5 := p4 + 1 + |f4|;
      && Sits(buf, p1, "\t" + f1) && Sits(buf, p2, "\t" + f2) && Sits(buf, p3, "\t" + f3) && Sits(buf, p4, "\t" + f4) &&
         Sits(buf, p5, "\n")
    ensures Reads(buf, p1, [f1] + ([f2] + ([f3] + ([f4] + []))), p1 + |f1| + |f2| + |f3| + |f4| + 4)
  {
    var p2 := p1 + 1 + |f1|;
    var p3 := p2 + 1 + |f2|;
    var p4 := p3 + 1 + |f3|;
    var p5 := p4 + 1 + |f4|;
    EndOfLine(buf, p5);
    TwoMore(buf, p3, f3, f4, [], p5);
    TwoMore(buf, p1, f1, f2, [f3] + ([f4] + []), p5);
  }

  lemma TwoMore(buf: string, p: nat, f: string, g: string, more: seq<string>, end: nat)
    requires IsField(f) && IsField(g) && Sits(buf, p, "\t" + f) && Sits(buf, p + 1 + |f|, "\t" + g)
    requires Reads(buf, p + 2 + |f| + |g|, more, end)
    ensures Reads(buf, p, [f] + ([g] + more), end)
  {
    ReadsMore(buf, p + 1 + |f|, g, more, end);
    ReadsMore(buf, p, f, [g] + more, end);
  }

  lemma EndOfLine(buf: string, i: nat)
    requires Sits(buf, i, "\n")
    ensures Reads(buf, i, [], i)
  {
    assert buf[i] == buf[i..i + 1][0];
  }

  /** A line that was written is read as the record it was written for. */
  lemma LineBack(buf: string, i: nat, r: Record, before: Record)
    requires WellFormed(r) && Sits(buf, i, Format(r))
    ensures LineEnd(buf, i) == i + |Format(r)| - 1 && |Fields(buf, i)| == 5 && Filled(Fields(buf, i), before) == r
  {
    var f0, f1, f3, f4 := PrintInt(r.timestamp), PrintInt(r.interval), Text(r.fromClient, 10), Text(r.toClient, 10);
    IntBack(r.timestamp);
    IntBack(r.interval);
    LongBack(r.fromClient);
    LongBack(r.toClient);
    FiveFields(buf, i, f0, f1, r.channel.name, f3, f4);
  }

  // ----- amounts per channel -----

  /** Bytes from and to clients. */
  datatype Amount = Amount(up: int, down: int)

  function Of(r: Record): Amount { Amount(r.fromClient, r.toClient) }

  function Get(m: map<Channel, Amount>, c: Channel): Amount { if c in m then m[c] else Amount(0, 0) }

  function Words(k: int): int { k * WORD }

  /** Equal in an unsigned long. */
  ghost predicate Congruent(a: int, b: int) { Whole(a - b) }

  ghost predicate Whole(d: int) { exists k: int :: d == Words(k) }

  /** g is f and p together, in unsigned longs. */
  ghost predicate Adds(g: Amount, f: Amount, p: Amount) {
    Congruent(g.up, f.up + p.up) && Congruent(g.down, f.down + p.down)
  }

  /** What the first n rows hold for channel c. */
  function PendingIn(rows: seq<Record>, n: nat, c: Channel): Amount
    requires n <= |rows|
  {
    if n == 0 then Amount(0, 0)
    else
      var p := PendingIn(rows, n - 1, c);
      var r := rows[n - 1];
      if r.channel == c then Amount(p.up + r.fromClient, p.down + r.toClient) else p
  }

  function Pending(rows: seq<Record>, c: Channel): Amount { PendingIn(rows, |rows|, c) }

  lemma {:induction false} PendingUpdate(rows: seq<Record>, i: nat, r: Record, n: nat, c: Channel)
    requires i < |rows| && n <= |rows| && r.channel == rows[i].channel
    ensures (r.channel != c || n <= i) ==> PendingIn(rows[i := r], n, c) == PendingIn(rows, n, c)
    ensures r.channel == c && i < n ==>
      var p, p' := PendingIn(rows, n, c), PendingIn(rows[i := r], n, c);
      p'.up == p.up + r.fromClient - rows[i].fromClient && p'.down == p.down + r.toClient - rows[i].toClient
    decreases n
  {
    if n > 0 { PendingUpdate(rows, i, r, n - 1, c); }
  }

  lemma {:induction false} PendingMore(rows: seq<Record>, r: Record, n: nat, c: Channel)
    requires n <= |rows|
    ensures PendingIn(rows + [r], n, c) == PendingIn(rows, n, c)
    decreases n
  {
    if n > 0 { PendingMore(rows, r, n - 1, c); }
  }

  /** Every byte reported is flushed or pending, as far as unsigned longs can tell. */
  ghost predicate Conserved(reported: map<Channel, Amount>, flushed: map<Channel, Amount>, rows: seq<Record>) {
    forall c {:trigger BalancedAt(reported, flushed, rows, c)} :: BalancedAt(reported, flushed, rows, c)
  }

  ghost predicate BalancedAt(reported: map<Channel, Amount>, flushed: map<Channel, Amount>, rows: seq<Record>,
                             c: Channel) {
    Adds(Get(reported, c), Get(flushed, c), Pending(rows, c))
  }

  ghost predicate RowOk(rows: seq<Record>, i: int) { 0 <= i < |rows| ==> Storable(rows[i]) }

  ghost predicate Distinct(rows: seq<Record>, i: int, j: int) {
    0 <= i < j < |rows| ==> rows[i].channel != rows[j].channel
  }

  ghost predicate Rows(rows: seq<Record>) {
    && (forall i {:trigger RowOk(rows, i)} :: RowOk(rows, i))
    && (forall i, j {:trigger Distinct(rows, i, j)} :: Distinct(rows, i, j))
  }

  lemma RowFacts(rows: seq<Record>, i: nat)
    requires Rows(rows) && i < |rows|
    ensures rows[i].timestamp != 0 && rows[i].channel.name != ""
  {
    assert RowOk(rows, i);
  }

  lemma RowsSlice(rows: seq<Record>, a: nat, b: nat)
    requires Rows(rows) && a <= b <= |rows|
    ensures Rows(rows[a..b])
  {
    var part := rows[a..b];
    forall i ensures RowOk(part, i) { assert RowOk(rows, a + i); }
    forall i, j ensures Distinct(part, i, j) { assert Distinct(rows, a + i, a + j); }
  }

  lemma RowsMost(rows: seq<Record>)
    requires Rows(rows) && rows != []
    ensures Rows(rows[..|rows| - 1]) && Rows(rows[1..]) && Storable(rows[0]) && Storable(rows[|rows| - 1])
    ensures forall i :: 0 <= i < |rows| - 1 ==> rows[i].channel != rows[|rows| - 1].channel
  {
    RowsSlice(rows, 0, |rows| - 1);
    RowsSlice(rows, 1, |rows|);
    assert rows[0..|rows| - 1] == rows[..|rows| - 1] && rows[1..|rows|] == rows[1..];
    assert RowOk(rows, 0) && RowOk(rows, |rows| - 1);
    forall i | 0 <= i < |rows| - 1 ensures rows[i].channel != rows[|rows| - 1].channel { assert Distinct(rows, i,
          |rows| - 1); }
  }

  /** Lines 430-438: the slot for the same channel takes the record. */
  function Merge(s: Record, r: Record): Record {
    Record(r.timestamp, r.interval, s.channel, (s.fromClient + r.fromClient) % WORD, (s.toClient + r.toClient) % WORD)
  }

  /** One more record is reported. */
  function Report(reported: map<Channel, Amount>, r: Record): map<Channel, Amount> {
    var a := Get(reported, r.channel);
    reported[r.channel := Amount(a.up + r.fromClient, a.down + r.toClient)]
  }

  lemma ModSum(a: int, b: int, x: nat, y: nat)
    requires Congruent(a, b + x)
    ensures Congruent(a + y, b + (x + y) % WORD)
  {
    var k: int :| a - (b + x) == Words(k);
    var q := (x + y) / WORD;
    assert a + y - (b + (x + y) % WORD) == Words(k + q);
  }

  lemma ModShift(a: int, b: int, x: nat)
    requires Congruent(a, b) && x < WORD
    ensures Congruent(a + x, b) <==> x == 0
  {
    var k: int :| a - b == Words(k);
    if Congruent(a + x, b) {
      var j: int :| a + x - b == Words(j);
      assert x == Words(j - k);
    }
  }

  lemma ModBack(a: int, b: int, x: nat)
    requires Congruent(a + x, b) && x < WORD
    ensures Congruent(a, b) <==> x == 0
  {
    var k: int :| a + x - b == Words(k);
    if Congruent(a, b) {
      var j: int :| a - b == Words(j);
      assert x == Words(k - j);
    }
  }

  lemma SameMerge(g: Amount, h: Amount, p: Amount, r: Record, g': Amount, p': Amount)
    requires Adds(g, h, p) && p.up >= 0 && p.down >= 0 && g'.up == g.up + r.fromClient && g'.down == g.down + r.toClient
    requires p'.up == (p.up + r.fromClient) % WORD && p'.down == (p.down + r.toClient) % WORD
    ensures Adds(g', h, p')
  {
    ModSum(g.up, h.up, p.up, r.fromClient);
    ModSum(g.down, h.down, p.down, r.toClient);
  }

  lemma MergedAt(reported: map<Channel, Amount>, flushed: map<Channel, Amount>, rows: seq<Record>, i: nat, r: Record,
                 c: Channel)
    requires BalancedAt(reported, flushed, rows, c) && i < |rows| && rows[i].channel == r.channel && PendingIs(rows, i)
    ensures BalancedAt(Report(reported, r), flushed, rows[i := Merge(rows[i], r)], c)
  {
    PendingUpdate(rows, i, Merge(rows[i], r), |rows|, c);
    GetReport(reported, r, c);
    if c == r.channel {
      SameMerge(Get(reported, c), Get(flushed, c), Pending(rows, c), r, Get(Report(reported, r), c),
          Pending(rows[i := Merge(rows[i], r)], c));
    }
  }

  lemma Merged(reported: map<Channel, Amount>, flushed: map<Channel, Amount>, rows: seq<Record>, i: nat, r: Record)
    requires Conserved(reported, flushed, rows) && i < |rows| && rows[i].channel == r.channel && PendingIs(rows, i)
    ensures Conserved(Report(reported, r), flushed, rows[i := Merge(rows[i], r)])
  {
    var reported', rows' := Report(reported, r), rows[i := Merge(rows[i], r)];
    forall c ensures BalancedAt(reported', flushed, rows', c) {
      MergedAt(reported, flushed, rows, i, r, c);
    }
  }

  /** With distinct channels a row holds all of its channel. */
  ghost predicate PendingIs(rows: seq<Record>, i: nat)
    requires i < |rows|
  {
    Pending(rows, rows[i].channel) == Of(rows[i])
  }

  lemma {:induction false} PendingNone(rows: seq<Record>, n: nat, c: Channel)
    requires n <= |rows| && forall i :: 0 <= i < n ==> rows[i].channel != c
    ensures PendingIn(rows, n, c) == Amount(0, 0)
    decreases n
  {
    if n > 0 { PendingNone(rows, n - 1, c); }
  }

  lemma {:induction false} PendingTo(rows: seq<Record>, i: nat, n: nat)
    requires Rows(rows) && i < n <= |rows|
    ensures PendingIn(rows, n, rows[i].channel) == Of(rows[i])
    decreases n
  {
    if i == n - 1 {
      forall j | 0 <= j < i ensures rows[j].channel != rows[i].channel { assert Distinct(rows, j, i); }
      PendingNone(rows, i, rows[i].channel);
    } else {
      assert Distinct(rows, i, n - 1);
      PendingTo(rows, i, n - 1);
    }
  }

  lemma AppendedAt(reported: map<Channel, Amount>, flushed: map<Channel, Amount>, rows: seq<Record>, r: Record,
                   c: Channel)
    requires BalancedAt(reported, flushed, rows, c)
    ensures BalancedAt(Report(reported, r), flushed, rows + [r], c)
  {
    PendingMore(rows, r, |rows|, c);
    GetReport(reported, r, c);
    var g, f, p := Get(reported, c), Get(flushed, c), Pending(rows, c);
    if c == r.channel {
      Shifted(g.up, f.up + p.up, r.fromClient);
      Shifted(g.down, f.down + p.down, r.toClient);
    }
  }

  lemma Shifted(a: int, b: int, x: int)
    requires Congruent(a, b)
    ensures Congruent(a + x, b + x)
  {
  }

  lemma Appended(reported: map<Channel, Amount>, flushed: map<Channel, Amount>, rows: seq<Record>, r: Record)
    requires Conserved(reported, flushed, rows)
    ensures Conserved(Report(reported, r), flushed, rows + [r])
  {
    var reported', rows' := Report(reported, r), rows + [r];
    forall c ensures BalancedAt(reported', flushed, rows', c) {
      assert BalancedAt(reported, flushed, rows, c);
      AppendedAt(reported, flushed, rows, r, c);
    }
  }

  lemma LevelSame(reported: map<Channel, Amount>, reported': map<Channel, Amount>, flushed: map<Channel, Amount>,
                  rows: seq<Record>, d: Channel)
    requires Get(reported', d) == Get(reported, d)
    ensures BalancedAt(reported', flushed, rows, d) <==> BalancedAt(reported, flushed, rows, d)
  {
    var p := Pending(rows, d);
    assert BalancedAt(reported, flushed, rows, d) <==> Adds(Get(reported, d), Get(flushed, d), p);
  }

  lemma EmptyReport(reported: map<Channel, Amount>, flushed: map<Channel, Amount>, rows: seq<Record>, r: Record,
                    d: Channel)
    requires r.fromClient == 0 && r.toClient == 0
    ensures BalancedAt(Report(reported, r), flushed, rows, d) <==> BalancedAt(reported, flushed, rows, d)
  {
    GetReport(reported, r, d);
    LevelSame(reported, Report(reported, r), flushed, rows, d);
  }

  /** A record that is not stored breaks the balance unless it reports nothing. */
  lemma Lost(reported: map<Channel, Amount>, flushed: map<Channel, Amount>, rows: seq<Record>, r: Record)
    requires Conserved(reported, flushed, rows) && r.fromClient < WORD && r.toClient < WORD
    ensures Conserved(Report(reported, r), flushed, rows) <==> r.fromClient == 0 && r.toClient == 0
  {
    var c := r.channel;
    assert BalancedAt(reported, flushed, rows, c);
    LostAt(reported, flushed, rows, r);
    if r.fromClient == 0 && r.toClient == 0 {
      forall d ensures BalancedAt(Report(reported, r), flushed, rows, d) {
        assert BalancedAt(reported, flushed, rows, d);
        EmptyReport(reported, flushed, rows, r, d);
      }
    } else {
      assert !BalancedAt(Report(reported, r), flushed, rows, c);
    }
  }

  lemma LostAt(reported: map<Channel, Amount>, flushed: map<Channel, Amount>, rows: seq<Record>, r: Record)
    requires BalancedAt(reported, flushed, rows, r.channel) && r.fromClient < WORD && r.toClient < WORD
    ensures BalancedAt(Report(reported, r), flushed, rows, r.channel) <==> r.fromClient == 0 && r.toClient == 0
  {
    var c := r.channel;
    GetReport(reported, r, c);
    ModShift(Get(reported, c).up, Get(flushed, c).up + Pending(rows, c).up, r.fromClient);
    ModShift(Get(reported, c).down, Get(flushed, c).down + Pending(rows, c).down, r.toClient);
  }

  // ----- the table as rows -----

  /** The row of channel c, or the number of rows. */
  function RowOf(rows: seq<Record>, c: Channel): (i: nat)
    ensures i <= |rows| && (i < |rows| ==> rows[i].channel == c) && forall j :: 0 <= j < i ==> rows[j].channel != c
  {
    if rows == [] then 0
    else
      var i := RowOf(rows[..|rows| - 1], c);
      if i < |rows| - 1 then i else if rows[|rows| - 1].channel == c then |rows| - 1 else |rows|
  }

  /** Whether there is a place for a record of channel c. */
  predicate HasPlace(rows: seq<Record>, c: Channel, capacity: nat) { RowOf(rows, c) < |rows| || |rows| < capacity }

  /** The record is merged into its channel's row, or gets a new one, or is lost. */
  function Added(rows: seq<Record>, r: Record, capacity: nat): seq<Record> {
    var i := RowOf(rows, r.channel);
    if i < |rows| then rows[i := Merge(rows[i], r)] else if |rows| < capacity then rows + [r] else rows
  }

  lemma AddedRows(rows: seq<Record>, r: Record, capacity: nat)
    requires Rows(rows) && Storable(r)
    ensures Rows(Added(rows, r, capacity))
  {
    var rows' := Added(rows, r, capacity);
    forall i ensures RowOk(rows', i) { assert RowOk(rows, i); }
    forall i, j ensures Distinct(rows', i, j) { assert Distinct(rows, i, j); }
  }

  /** The balance modulo 2^64 is kept exactly if the record has a place or reports nothing. */
  lemma AddBalance(reported: map<Channel, Amount>, flushed: map<Channel, Amount>, rows: seq<Record>, r: Record,
                   capacity: nat)
    requires Rows(rows) && Storable(r) && Conserved(reported, flushed, rows)
    ensures Conserved(Report(reported, r), flushed, Added(rows, r, capacity)) <==>
      HasPlace(rows, r.channel, capacity) || (r.fromClient == 0 && r.toClient == 0)
  {
    var i := RowOf(rows, r.channel);
    if i < |rows| {
      PendingTo(rows, i, |rows|);
      Merged(reported, flushed, rows, i, r);
    } else if |rows| < capacity {
      Appended(reported, flushed, rows, r);
    } else {
      Lost(reported, flushed, rows, r);
    }
  }

  /** A record stored but not reported breaks the balance unless it holds nothing. */
  lemma ReportedOnce(reported: map<Channel, Amount>, flushed: map<Channel, Amount>, rows: seq<Record>, r: Record)
    requires Conserved(Report(reported, r), flushed, rows) && r.fromClient < WORD && r.toClient < WORD
    ensures Conserved(reported, flushed, rows) <==> r.fromClient == 0 && r.toClient == 0
  {
    var c := r.channel;
    assert BalancedAt(Report(reported, r), flushed, rows, c);
    ReportedOnceAt(reported, flushed, rows, r);
    if r.fromClient == 0 && r.toClient == 0 {
      forall d ensures BalancedAt(reported, flushed, rows, d) {
        assert BalancedAt(Report(reported, r), flushed, rows, d);
        EmptyReport(reported, flushed, rows, r, d);
      }
    } else {
      assert !BalancedAt(reported, flushed, rows, c);
    }
  }

  lemma ReportedOnceAt(reported: map<Channel, Amount>, flushed: map<Channel, Amount>, rows: seq<Record>, r: Record)
    requires BalancedAt(Report(reported, r), flushed, rows, r.channel) && r.fromClient < WORD && r.toClient < WORD
    ensures BalancedAt(reported, flushed, rows, r.channel) <==> r.fromClient == 0 && r.toClient == 0
  {
    var c := r.channel;
    GetReport(reported, r, c);
    ModBack(Get(reported, c).up, Get(flushed, c).up + Pending(rows, c).up, r.fromClient);
    ModBack(Get(reported, c).down, Get(flushed, c).down + Pending(rows, c).down, r.toClient);
  }

  /**
   A line without five fields leaves the previous record in place, which is then added a second
   time (lines 380-439): nobody reported it again, so the balance is lost exactly if the record
   has a place and reports any bytes.
   */
  lemma MalformedLine(reported: map<Channel, Amount>, flushed: map<Channel, Amount>, rows: seq<Record>,
                      fields: seq<string>, previous: Record, capacity: nat)
    requires Rows(rows) && Storable(previous) && Conserved(reported, flushed, rows) && |fields| != 5
    ensures Filled(fields, previous) == previous
    ensures Conserved(reported, flushed, Added(rows, previous, capacity)) <==>
      !HasPlace(rows, previous.channel, capacity) || (previous.fromClient == 0 && previous.toClient == 0)
  {
    AddBalance(reported, flushed, rows, previous, capacity);
    if HasPlace(rows, previous.channel, capacity) {
      ReportedOnce(reported, flushed, Added(rows, previous, capacity), previous);
    }
  }

  function ReportAll(reported: map<Channel, Amount>, recs: seq<Record>): map<Channel, Amount>
    decreases |recs|
  {
    if recs == [] then reported else ReportAll(Report(reported, recs[0]), recs[1..])
  }

  function AddedAll(rows: seq<Record>, recs: seq<Record>, capacity: nat): seq<Record>
    decreases |recs|
  {
    if recs == [] then rows else AddedAll(Added(rows, recs[0], capacity), recs[1..], capacity)
  }

  function Channels(rows: seq<Record>): set<Channel> { set r | r in rows :: r.channel }

  lemma {:induction false} ChannelCount(rows: seq<Record>)
    requires Rows(rows)
    ensures |Channels(rows)| == |rows|
  {
    if rows != [] {
      RowsMost(rows);
      var most, r := rows[..|rows| - 1], rows[|rows| - 1];
      ChannelCount(most);
      assert rows == most + [r];
      assert r.channel !in Channels(most);
      assert Channels(rows) == Channels(most) + {r.channel};
    }
  }

  /** While all channels together have room, every record has a place. */
  lemma PlaceForAll(rows: seq<Record>, r: Record, others: set<Channel>, capacity: nat)
    requires Rows(rows) && |Channels(rows) + {r.channel} + others| <= capacity
    ensures HasPlace(rows, r.channel, capacity) && Channels(Added(rows, r, capacity)) == Channels(rows) + {r.channel}
  {
    ChannelCount(rows);
    var i := RowOf(rows, r.channel);
    if i < |rows| {
      assert rows[i] in rows && r.channel in Channels(rows);
      SameChannels(rows, i, Merge(rows[i], r));
      assert Channels(rows) + {r.channel} == Channels(rows);
    } else {
      assert r.channel !in Channels(rows);
      assert Channels(rows) + {r.channel} <= Channels(rows) + {r.channel} + others;
      Subset(Channels(rows) + {r.channel}, Channels(rows) + {r.channel} + others);
      assert Channels(rows + [r]) == Channels(rows) + {r.channel};
    }
  }

  lemma SameChannels(rows: seq<Record>, i: nat, s: Record)
    requires i < |rows| && s.channel == rows[i].channel
    ensures Channels(rows[i := s]) == Channels(rows)
  {
    var rows' := rows[i := s];
    forall c | c in Channels(rows) ensures c in Channels(rows') {
      var r :| r in rows && r.channel == c;
      var j :| 0 <= j < |rows| && rows[j] == r;
      assert rows'[j] in rows' && rows'[j].channel == c;
    }
    forall c | c in Channels(rows') ensures c in Channels(rows) {
      var r :| r in rows' && r.channel == c;
      var j :| 0 <= j < |rows'| && rows'[j] == r;
      assert rows[j] in rows && rows[j].channel == c;
    }
  }

  lemma Subset<T>(a: set<T>, b: set<T>)
    requires a <= b
    ensures |a| <= |b|
  {
    assert b == a + (b - a);
  }

  /** At most as many channels as slots between two flushes: no record is lost. */
  lemma {:induction false} AllBalanced(reported: map<Channel, Amount>, flushed: map<Channel, Amount>, rows: seq<Record>,
                                       recs: seq<Record>, capacity: nat)
    requires Rows(rows) && Conserved(reported, flushed, rows) && (forall i :: 0 <= i < |recs| ==> Storable(recs[i]))
    requires |Channels(rows) + Channels(recs)| <= capacity
    ensures Rows(AddedAll(rows, recs, capacity)) &&
            Conserved(ReportAll(reported, recs), flushed, AddedAll(rows, recs, capacity))
    decreases |recs|
  {
    if recs != [] {
      var r, rest := recs[0], recs[1..];
      assert recs == [r] + rest;
      assert Channels(rows) + Channels(recs) == Channels(rows) + {r.channel} + Channels(rest);
      PlaceForAll(rows, r, Channels(rest), capacity);
      AddedRows(rows, r, capacity);
      AddBalance(reported, flushed, rows, r, capacity);
      AllBalanced(Report(reported, r), flushed, Added(rows, r, capacity), rest, capacity);
    }
  }

  // ----- the flush -----

  /** The amounts of the first n rows move from pending to flushed. */
  function FlushTo(flushed: map<Channel, Amount>, rows: seq<Record>, n: nat): map<Channel, Amount>
    requires n <= |rows|
  {
    if n == 0 then flushed else Report(FlushTo(flushed, rows, n - 1), rows[n - 1])
  }

  function FlushAll(flushed: map<Channel, Amount>, rows: seq<Record>): map<Channel, Amount> {
    FlushTo(flushed, rows, |rows|)
  }

  lemma GetReport(m: map<Channel, Amount>, r: Record, c: Channel)
    ensures r.channel != c ==> Get(Report(m, r), c) == Get(m, c)
    ensures r.channel == c ==>
      Get(Report(m, r), c).up == Get(m, c).up + r.fromClient && Get(Report(m, r), c).down == Get(m, c).down + r.toClient
  {
  }

  lemma {:induction false} FlushAmount(flushed: map<Channel, Amount>, rows: seq<Record>, n: nat, c: Channel)
    requires n <= |rows|
    ensures Get(FlushTo(flushed, rows, n), c).up == Get(flushed, c).up + PendingIn(rows, n, c).up
    ensures Get(FlushTo(flushed, rows, n), c).down == Get(flushed, c).down + PendingIn(rows, n, c).down
    decreases n
  {
    if n > 0 {
      FlushAmount(flushed, rows, n - 1, c);
      GetReport(FlushTo(flushed, rows, n - 1), rows[n - 1], c);
    }
  }

  lemma FlushedAt(reported: map<Channel, Amount>, flushed: map<Channel, Amount>, rows: seq<Record>, c: Channel)
    requires BalancedAt(reported, flushed, rows, c)
    ensures BalancedAt(reported, FlushAll(flushed, rows), [], c)
  {
    FlushAmount(flushed, rows, |rows|, c);
  }

  lemma FlushBalance(reported: map<Channel, Amount>, flushed: map<Channel, Amount>, rows: seq<Record>)
    requires Conserved(reported, flushed, rows)
    ensures Conserved(reported, FlushAll(flushed, rows), [])
  {
    var flushed', none: seq<Record> := FlushAll(flushed, rows), [];
    forall c ensures BalancedAt(reported, flushed', none, c) {
      assert BalancedAt(reported, flushed, rows, c);
      FlushedAt(reported, flushed, rows, c);
    }
  }

  // ----- true amounts -----

  /** Every byte reported is flushed or pending, in true numbers. */
  ghost predicate Exact(reported: map<Channel, Amount>, flushed: map<Channel, Amount>, rows: seq<Record>) {
    forall c {:trigger ExactAt(reported, flushed, rows, c)} :: ExactAt(reported, flushed, rows, c)
  }

  ghost predicate ExactAt(reported: map<Channel, Amount>, flushed: map<Channel, Amount>, rows: seq<Record>,
                          c: Channel) {
    var g, f, p := Get(reported, c), Get(flushed, c), Pending(rows, c);
    g.up == f.up + p.up && g.down == f.down + p.down
  }

  lemma CongruentSame(a: int, b: int)
    requires a == b
    ensures Congruent(a, b)
  {
    assert a - b == Words(0);
  }

  lemma ExactAtBalanced(reported: map<Channel, Amount>, flushed: map<Channel, Amount>, rows: seq<Record>, c: Channel)
    requires ExactAt(reported, flushed, rows, c)
    ensures BalancedAt(reported, flushed, rows, c)
  {
    var g, f, p := Get(reported, c), Get(flushed, c), Pending(rows, c);
    CongruentSame(g.up, f.up + p.up);
    CongruentSame(g.down, f.down + p.down);
  }

  lemma ExactBalanced(reported: map<Channel, Amount>, flushed: map<Channel, Amount>, rows: seq<Record>)
    requires Exact(reported, flushed, rows)
    ensures Conserved(reported, flushed, rows)
  {
    forall c ensures BalancedAt(reported, flushed, rows, c) {
      assert ExactAt(reported, flushed, rows, c);
      ExactAtBalanced(reported, flushed, rows, c);
    }
  }

  /** What the rows hold for a channel is a counter of one row, or nothing. */
  lemma PendingBound(rows: seq<Record>, c: Channel)
    requires Rows(rows)
    ensures 0 <= Pending(rows, c).up < WORD && 0 <= Pending(rows, c).down < WORD
  {
    var i := RowOf(rows, c);
    if i < |rows| {
      assert RowOk(rows, i);
      PendingTo(rows, i, |rows|);
    } else {
      PendingNone(rows, |rows|, c);
    }
  }

  /** The bytes that the records report for channel c. */
  function Total(recs: seq<Record>, c: Channel): Amount
    decreases |recs|
  {
    if recs == [] then Amount(0, 0)
    else
      var t := Total(recs[1..], c);
      if recs[0].channel == c then Amount(recs[0].fromClient + t.up, recs[0].toClient + t.down) else t
  }

  lemma {:induction false} TotalReported(reported: map<Channel, Amount>, recs: seq<Record>, c: Channel)
    ensures Get(ReportAll(reported, recs), c).up == Get(reported, c).up + Total(recs, c).up
    ensures Get(ReportAll(reported, recs), c).down == Get(reported, c).down + Total(recs, c).down
    ensures Total(recs, c).up >= 0 && Total(recs, c).down >= 0
    decreases |recs|
  {
    if recs != [] {
      GetReport(reported, recs[0], c);
      TotalReported(Report(reported, recs[0]), recs[1..], c);
    }
  }

  /** A counter that is right modulo 2^64 is right exactly if the true sum is below 2^64. */
  lemma NoCarry(g: int, f: int, sum: nat, p: nat)
    requires g == f + sum && Congruent(g, f + p) && p < WORD
    ensures g == f + p <==> sum < WORD
  {
    var k: int :| g - (f + p) == Words(k);
    assert sum == p + k * WORD;
  }

  /** Neither counter of channel c passes 2^64. */
  ghost predicate BelowWord(rows: seq<Record>, recs: seq<Record>, c: Channel) {
    Pending(rows, c).up + Total(recs, c).up < WORD && Pending(rows, c).down + Total(recs, c).down < WORD
  }

  lemma ExactAfter(reported: map<Channel, Amount>, flushed: map<Channel, Amount>, rows: seq<Record>, recs: seq<Record>,
                   rows': seq<Record>, c: Channel)
    requires Rows(rows) && Rows(rows') && ExactAt(reported, flushed, rows, c)
    requires BalancedAt(ReportAll(reported, recs), flushed, rows', c)
    ensures ExactAt(ReportAll(reported, recs), flushed, rows', c) <==> BelowWord(rows, recs, c)
  {
    var f, p, p', t := Get(flushed, c), Pending(rows, c), Pending(rows', c), Total(recs, c);
    var g := Get(ReportAll(reported, recs), c);
    TotalReported(reported, recs, c);
    PendingBound(rows, c);
    PendingBound(rows', c);
    NoCarry(g.up, f.up, p.up + t.up, p'.up);
    NoCarry(g.down, f.down, p.down + t.down, p'.down);
  }

  /**
   With a row for each channel no record is lost, and the true amounts balance exactly if no channel
   reports 2^64 bytes or more between two flushes.
   */
  lemma AllExact(reported: map<Channel, Amount>, flushed: map<Channel, Amount>, rows: seq<Record>, recs: seq<Record>,
                 capacity: nat)
    requires Rows(rows) && Exact(reported, flushed, rows) && (forall i :: 0 <= i < |recs| ==> Storable(recs[i]))
    requires |Channels(rows) + Channels(recs)| <= capacity
    ensures Exact(ReportAll(reported, recs), flushed, AddedAll(rows, recs, capacity)) <==> AllBelow(rows, recs)
  {
    SentExact(reported, flushed, rows, recs, recs, capacity);
    forall c ensures SentAt(recs, recs, c) {
      CongruentSame(Total(recs, c).up, Total(recs, c).up);
      CongruentSame(Total(recs, c).down, Total(recs, c).down);
    }
  }

  // ----- timestamps -----

  ghost predicate IsLast(recs: seq<Record>, k: int, c: Channel) {
    0 <= k < |recs| && recs[k].channel == c && forall j :: k < j < |recs| ==> recs[j].channel != c
  }

  ghost predicate NoneOf(recs: seq<Record>, c: Channel) { forall k :: 0 <= k < |recs| ==> recs[k].channel != c }

  /** Row i keeps its channel, and carries the time of the last record of it, or is as it was. */
  ghost predicate Stamped(rows: seq<Record>, recs: seq<Record>, rows': seq<Record>, i: int) {
    0 <= i < |rows'| ==>
      var c := rows'[i].channel;
      && (i < |rows| ==> rows[i].channel == c)
      && (forall k :: IsLast(recs, k, c) ==>
           rows'[i].timestamp == recs[k].timestamp && rows'[i].interval == recs[k].interval)
      && (NoneOf(recs, c) ==> i < |rows| && rows'[i] == rows[i])
  }

  lemma StampedOne(rows: seq<Record>, r: Record, capacity: nat, i: nat)
    requires Rows(rows) && Storable(r) && i < |Added(rows, r, capacity)|
    ensures var r' := Added(rows, r, capacity)[i];
      && (i < |rows| ==> r'.channel == rows[i].channel)
      && (r'.channel == r.channel ==> r'.timestamp == r.timestamp && r'.interval == r.interval)
      && (r'.channel != r.channel ==> i < |rows| && r' == rows[i])
  {
    var j := RowOf(rows, r.channel);
    if i < j { assert rows[i].channel != r.channel; }
    assert Distinct(rows, j, i);
  }

  /** After any records each row carries the time of the last one of its channel. */
  lemma {:induction false} LastTimes(rows: seq<Record>, recs: seq<Record>, capacity: nat, i: nat)
    requires Rows(rows) && forall k :: 0 <= k < |recs| ==> Storable(recs[k])
    ensures Stamped(rows, recs, AddedAll(rows, recs, capacity), i)
    decreases |recs|
  {
    if recs != [] {
      var rows1, rest, rows' := Added(rows, recs[0], capacity), recs[1..], AddedAll(rows, recs, capacity);
      AddedRows(rows, recs[0], capacity);
      LastTimes(rows1, rest, capacity, i);
      if i < |rows'| {
        if i < |rows1| { StampedOne(rows, recs[0], capacity, i); }
        StampedMore(rows, rows1, recs, rows', i);
      }
    }
  }

  lemma StampedMore(rows: seq<Record>, rows1: seq<Record>, recs: seq<Record>, rows': seq<Record>, i: nat)
    requires recs != [] && Stamped(rows1, recs[1..], rows', i) && i < |rows'| && |rows| <= |rows1|
    requires i < |rows1| ==>
      && (i < |rows| ==> rows1[i].channel == rows[i].channel)
      && (rows1[i].channel == recs[0].channel ==>
           rows1[i].timestamp == recs[0].timestamp && rows1[i].interval == recs[0].interval)
      && (rows1[i].channel != recs[0].channel ==> i < |rows| && rows1[i] == rows[i])
    ensures Stamped(rows, recs, rows', i)
  {
    var c, rest := rows'[i].channel, recs[1..];
    forall k | IsLast(recs, k, c)
      ensures rows'[i].timestamp == recs[k].timestamp && rows'[i].interval == recs[k].interval
    {
      if k > 0 {
        assert forall j :: k - 1 < j < |rest| ==> rest[j] == recs[j + 1];
        assert IsLast(rest, k - 1, c);
      } else {
        assert forall j :: 0 <= j < |rest| ==> rest[j] == recs[j + 1];
        assert NoneOf(rest, c);
      }
    }
    if NoneOf(recs, c) {
      assert recs[0].channel != c && forall j :: 0 <= j < |rest| ==> rest[j] == recs[j + 1];
      assert NoneOf(rest, c);
    }
  }

  // ----- records added and records sent -----

  /** No channel gained bytes that were not sent, as far as unsigned longs can tell. */
  ghost predicate AllSent(recs: seq<Record>, sent: seq<Record>) {
    forall c {:trigger SentAt(recs, sent, c)} :: SentAt(recs, sent, c)
  }

  ghost predicate SentAt(recs: seq<Record>, sent: seq<Record>, c: Channel) {
    Congruent(Total(recs, c).up, Total(sent, c).up) && Congruent(Total(recs, c).down, Total(sent, c).down)
  }

  ghost predicate AllBelow(rows: seq<Record>, recs: seq<Record>) {
    forall c {:trigger BelowWord(rows, recs, c)} :: BelowWord(rows, recs, c)
  }

  lemma CongruentBoth(g: int, x: int, y: int, h: int)
    requires Congruent(g + x, h)
    ensures Congruent(g + y, h) <==> Congruent(x, y)
  {
    var k: int :| g + x - h == Words(k);
    if Congruent(g + y, h) {
      var l: int :| g + y - h == Words(l);
      assert x - y == Words(k - l);
    }
    if Congruent(x, y) {
      var l: int :| x - y == Words(l);
      assert g + y - h == Words(k - l);
    }
  }

  lemma SentBalanceAt(reported: map<Channel, Amount>, flushed: map<Channel, Amount>, recs: seq<Record>,
                      sent: seq<Record>, rows': seq<Record>, c: Channel)
    requires BalancedAt(ReportAll(reported, recs), flushed, rows', c)
    ensures BalancedAt(ReportAll(reported, sent), flushed, rows', c) <==> SentAt(recs, sent, c)
  {
    var g, f, p := Get(reported, c), Get(flushed, c), Pending(rows', c);
    TotalReported(reported, recs, c);
    TotalReported(reported, sent, c);
    CongruentBoth(g.up, Total(recs, c).up, Total(sent, c).up, f.up + p.up);
    CongruentBoth(g.down, Total(recs, c).down, Total(sent, c).down, f.down + p.down);
  }

  /** With a row for each channel the balance is kept exactly if all bytes that were added were sent. */
  lemma SentBalance(reported: map<Channel, Amount>, flushed: map<Channel, Amount>, rows: seq<Record>,
                    recs: seq<Record>, sent: seq<Record>, capacity: nat)
    requires Rows(rows) && Conserved(reported, flushed, rows) && (forall i :: 0 <= i < |recs| ==> Storable(recs[i]))
    requires |Channels(rows) + Channels(recs)| <= capacity
    ensures Conserved(ReportAll(reported, sent), flushed, AddedAll(rows, recs, capacity)) <==> AllSent(recs, sent)
  {
    var reported', rows' := ReportAll(reported, sent), AddedAll(rows, recs, capacity);
    AllBalanced(reported, flushed, rows, recs, capacity);
    forall c ensures BalancedAt(reported', flushed, rows', c) <==> SentAt(recs, sent, c) {
      assert BalancedAt(ReportAll(reported, recs), flushed, rows', c);
      SentBalanceAt(reported, flushed, recs, sent, rows', c);
    }
    if AllSent(recs, sent) {
      forall c ensures BalancedAt(reported', flushed, rows', c) { assert SentAt(recs, sent, c); }
    } else {
      var c :| !SentAt(recs, sent, c);
      assert !BalancedAt(reported', flushed, rows', c);
    }
  }

  /** The true amounts balance exactly if in addition no channel sent 2^64 bytes or more. */
  lemma SentExact(reported: map<Channel, Amount>, flushed: map<Channel, Amount>, rows: seq<Record>,
                  recs: seq<Record>, sent: seq<Record>, capacity: nat)
    requires Rows(rows) && Exact(reported, flushed, rows) && (forall i :: 0 <= i < |recs| ==> Storable(recs[i]))
    requires |Channels(rows) + Channels(recs)| <= capacity
    ensures Exact(ReportAll(reported, sent), flushed, AddedAll(rows, recs, capacity)) <==>
      AllSent(recs, sent) && AllBelow(rows, sent)
  {
    var reported', rows' := ReportAll(reported, sent), AddedAll(rows, recs, capacity);
    ExactBalanced(reported, flushed, rows);
    AllBalanced(reported, flushed, rows, recs, capacity);
    SentBalance(reported, flushed, rows, recs, sent, capacity);
    if AllSent(recs, sent) {
      forall c ensures ExactAt(reported', flushed, rows', c) <==> BelowWord(rows, sent, c) {
        assert ExactAt(reported, flushed, rows, c) && BalancedAt(reported', flushed, rows', c);
        ExactAfter(reported, flushed, rows, sent, rows', c);
      }
      AllAtOnce(reported', flushed, rows, sent, rows');
    } else if Exact(reported', flushed, rows') {
      ExactBalanced(reported', flushed, rows');
      assert false;
    }
  }

  lemma AllAtOnce(reported: map<Channel, Amount>, flushed: map<Channel, Amount>, rows: seq<Record>,
                  recs: seq<Record>, rows': seq<Record>)
    requires forall c {:trigger BelowWord(rows, recs, c)} ::
      ExactAt(reported, flushed, rows', c) <==> BelowWord(rows, recs, c)
    ensures Exact(reported, flushed, rows') <==> AllBelow(rows, recs)
  {
    if AllBelow(rows, recs) {
      forall c ensures ExactAt(reported, flushed, rows', c) { assert BelowWord(rows, recs, c); }
    } else {
      var c :| !BelowWord(rows, recs, c);
      assert !ExactAt(reported, flushed, rows', c);
    }
  }

  /** One record: no byte of it is lost exactly if it has a place where neither counter wraps, or reports nothing. */
  lemma AddExact(reported: map<Channel, Amount>, flushed: map<Channel, Amount>, rows: seq<Record>, r: Record,
                 capacity: nat)
    requires Rows(rows) && Storable(r) && Exact(reported, flushed, rows)
    ensures Exact(Report(reported, r), flushed, Added(rows, r, capacity)) <==>
      (HasPlace(rows, r.channel, capacity) && BelowWord(rows, [r], r.channel)) || (r.fromClient == 0 && r.toClient == 0)
  {
    var reported', rows' := Report(reported, r), Added(rows, r, capacity);
    ExactBalanced(reported, flushed, rows);
    AddBalance(reported, flushed, rows, r, capacity);
    AddedRows(rows, r, capacity);
    OneReport(reported, r);
    if Conserved(reported', flushed, rows') {
      forall c ensures ExactAt(reported', flushed, rows', c) <==> BelowWord(rows, [r], c) {
        assert ExactAt(reported, flushed, rows, c) && BalancedAt(reported', flushed, rows', c);
        ExactAfter(reported, flushed, rows, [r], rows', c);
      }
      OtherBelow(rows, r);
      if BelowWord(rows, [r], r.channel) {
        forall c ensures ExactAt(reported', flushed, rows', c) { assert BelowWord(rows, [r], c); }
      } else {
        assert !ExactAt(reported', flushed, rows', r.channel);
      }
    } else if Exact(reported', flushed, rows') {
      ExactBalanced(reported', flushed, rows');
      assert false;
    }
  }

  lemma OneReport(reported: map<Channel, Amount>, r: Record)
    ensures ReportAll(reported, [r]) == Report(reported, r)
  {
    assert [r][1..] == [];
  }

  /** Only the channel of the record can pass 2^64, and only with bytes to report. */
  lemma OtherBelow(rows: seq<Record>, r: Record)
    requires Rows(rows)
    ensures forall c {:trigger BelowWord(rows, [r], c)} :: c != r.channel ==> BelowWord(rows, [r], c)
    ensures r.fromClient == 0 && r.toClient == 0 ==> BelowWord(rows, [r], r.channel)
  {
    forall c ensures c != r.channel || (r.fromClient == 0 && r.toClient == 0) ==> BelowWord(rows, [r], c) {
      PendingBound(rows, c);
      assert [r][1..] == [];
    }
  }

  /** The true amounts are off in just the same cases. */
  lemma MalformedExact(reported: map<Channel, Amount>, flushed: map<Channel, Amount>, rows: seq<Record>,
                       fields: seq<string>, previous: Record, capacity: nat)
    requires Rows(rows) && Storable(previous) && Exact(reported, flushed, rows) && |fields| != 5
    ensures Exact(reported, flushed, Added(rows, Filled(fields, previous), capacity)) <==>
      !HasPlace(rows, previous.channel, capacity) || (previous.fromClient == 0 && previous.toClient == 0)
  {
    var rows' := Added(rows, previous, capacity);
    ExactBalanced(reported, flushed, rows);
    MalformedLine(reported, flushed, rows, fields, previous, capacity);
    if previous.fromClient == 0 && previous.toClient == 0 {
      AddExact(reported, flushed, rows, previous, capacity);
      forall c ensures ExactAt(reported, flushed, rows', c) {
        assert ExactAt(Report(reported, previous), flushed, rows', c);
        GetReport(reported, previous, c);
      }
    } else if HasPlace(rows, previous.channel, capacity) && Exact(reported, flushed, rows') {
      ExactBalanced(reported, flushed, rows');
      assert false;
    }
  }

  lemma FlushExact(reported: map<Channel, Amount>, flushed: map<Channel, Amount>, rows: seq<Record>)
    requires Exact(reported, flushed, rows)
    ensures Exact(reported, FlushAll(flushed, rows), [])
  {
    var flushed', none: seq<Record> := FlushAll(flushed, rows), [];
    forall c ensures ExactAt(reported, flushed', none, c) {
      assert ExactAt(reported, flushed, rows, c);
      FlushAmount(flushed, rows, |rows|, c);
    }
  }

  // ----- the table in memory -----

  lemma NothingYet(m: map<Channel, Amount>, rows: seq<Record>)
    requires (forall c :: c !in m) && rows == []
    ensures Exact(m, m, rows) && Conserved(m, m, rows)
  {
    forall c ensures ExactAt(m, m, rows, c) { PendingNone(rows, 0, c); }
    ExactBalanced(m, m, rows);
  }

  /** memcpy of a name without its NUL over another one. */
  function Overlay(c: Channel, under: Channel): Channel {
    if |c.name| < |under.name| then Channel(c.name + under.name[|c.name|..]) else c
  }

  function Head(rows: seq<Record>, i: nat): seq<Record> { if i < |rows| then rows[..i] else rows }

  /** One line for each row. */
  ghost predicate Written(lines: seq<string>, rows: seq<Record>) {
    |lines| == |rows| && forall i {:trigger Wrote(lines, rows, i)} :: Wrote(lines, rows, i)
  }

  ghost predicate Wrote(lines: seq<string>, rows: seq<Record>, i: int) {
    0 <= i < |rows| && i < |lines| ==> lines[i] == Format(rows[i])
  }

  lemma WrittenMore(lines: seq<string>, rows: seq<Record>, i: nat, line: string)
    requires i < |rows| && Written(lines, Head(rows, i)) && line == Format(rows[i])
    ensures Written(lines + [line], Head(rows, i + 1))
  {
    var lines', head := lines + [line], Head(rows, i + 1);
    assert head == Head(rows, i) + [rows[i]];
    forall j ensures Wrote(lines', head, j) { WroteMore(lines, Head(rows, i), line, rows[i], j); }
  }

  lemma WroteMore(lines: seq<string>, rows: seq<Record>, line: string, r: Record, j: int)
    requires Written(lines, rows) && line == Format(r)
    ensures Wrote(lines + [line], rows + [r], j)
  {
    assert Wrote(lines, rows, j);
  }

  lemma WrittenRest(lines: seq<string>, rows: seq<Record>)
    requires Written(lines, rows) && rows != []
    ensures lines[0] == Format(rows[0]) && Written(lines[1..], rows[1..])
  {
    var lines', rows' := lines[1..], rows[1..];
    assert Wrote(lines, rows, 0);
    forall j ensures Wrote(lines', rows', j) { assert Wrote(lines, rows, j + 1); }
  }

  function Concat(lines: seq<string>): string { if lines == [] then "" else lines[0] + Concat(lines[1..]) }

  /** The line at i holds the record, whatever record was there before. */
  ghost predicate OneLine(buf: string, i: nat, r: Record)
    requires i <= |buf|
  {
    && LineEnd(buf, i) < |buf| && WellFormed(r)
    && forall before {:trigger Filled(Fields(buf, i), before)} ::
         |Fields(buf, i)| == 5 && Filled(Fields(buf, i), before) == r
  }

  /** The records that the lines from i on hold. */
  ghost predicate Holds(buf: string, i: nat, recs: seq<Record>)
    requires i <= |buf|
    decreases |recs|
  {
    if recs == [] then i == |buf|
    else OneLine(buf, i, recs[0]) && Holds(buf, LineEnd(buf, i) + 1, recs[1..])
  }

  /** The records that the loop of lines 407-440 adds, each the one before it where a line has not five fields. */
  ghost predicate Yields(buf: string, i: nat, before: Record, recs: seq<Record>)
    requires i <= |buf|
    decreases |recs|
  {
    if |buf| <= i + 1 then recs == []
    else
      && LineEnd(buf, i) < |buf| && recs != [] && recs[0] == Filled(Fields(buf, i), before) && Storable(recs[0])
      && Yields(buf, LineEnd(buf, i) + 1, recs[0], recs[1..])
  }

  /** Those of them that were sent: one for each line with five fields. */
  ghost function Sent(buf: string, i: nat, before: Record, recs: seq<Record>): seq<Record>
    requires i <= |buf| && Yields(buf, i, before, recs)
    decreases |recs|
  {
    if recs == [] then []
    else
      var more := Sent(buf, LineEnd(buf, i) + 1, recs[0], recs[1..]);
      if |Fields(buf, i)| == 5 then [recs[0]] + more else more
  }

  lemma SentStep(buf: string, i: nat, before: Record, recs: seq<Record>, reported: map<Channel, Amount>)
    requires i + 1 < |buf| && Yields(buf, i, before, recs)
    ensures LineEnd(buf, i) < |buf| && Yields(buf, LineEnd(buf, i) + 1, recs[0], recs[1..])
    ensures var reported' := if |Fields(buf, i)| == 5 then Report(reported, recs[0]) else reported;
      ReportAll(reported, Sent(buf, i, before, recs)) ==
        ReportAll(reported', Sent(buf, LineEnd(buf, i) + 1, recs[0], recs[1..]))
  {
    var more := Sent(buf, LineEnd(buf, i) + 1, recs[0], recs[1..]);
    assert ([recs[0]] + more)[1..] == more;
  }

  lemma {:induction false} YieldsStorable(buf: string, i: nat, before: Record, recs: seq<Record>)
    requires i <= |buf| && Yields(buf, i, before, recs)
    ensures forall k :: 0 <= k < |recs| ==> Storable(recs[k])
    decreases |recs|
  {
    if recs != [] { YieldsStorable(buf, LineEnd(buf, i) + 1, recs[0], recs[1..]); }
  }

  /** Of a file of records all are sent, whatever was there before. */
  lemma {:induction false} HoldsYields(buf: string, i: nat, before: Record, recs: seq<Record>)
    requires i <= |buf| && Holds(buf, i, recs)
    ensures Yields(buf, i, before, recs) && Sent(buf, i, before, recs) == recs
    decreases |recs|
  {
    if recs != [] {
      assert Filled(Fields(buf, i), before) == recs[0];
      if |buf| <= i + 1 { OneChar(buf, i); }
      HoldsYields(buf, LineEnd(buf, i) + 1, recs[0], recs[1..]);
    }
  }

  lemma OneChar(buf: string, i: nat)
    requires i <= |buf| <= i + 1
    ensures |Fields(buf, i)| <= 1
  {
    if i < |buf| && buf[i] != '\n' {
      var b := FieldEnd(buf, SkipTabs(buf, i));
      assert b == i || Fields(buf, b) == [];
    }
  }

  class Table {
    const slots: array<Record>                     // m_b_data
    ghost var rows: seq<Record>
    ghost var reported: map<Channel, Amount>        // all that ever came in, per channel
    ghost var flushed: map<Channel, Amount>         // all that was ever written out

    /** The occupied slots come first, each with a channel of its own. */
    ghost predicate Valid()
      reads this, slots
    {
      && |rows| <= slots.Length && Rows(rows)
      && (forall i :: 0 <= i < |rows| ==> slots[i] == rows[i])
      && (forall i :: |rows| <= i < slots.Length ==> slots[i] == EMPTY)
    }

    constructor (maxVhost: nat)
      ensures Valid() && rows == [] && slots.Length == maxVhost && fresh(slots)
      ensures Exact(reported, flushed, rows) && Conserved(reported, flushed, rows)
    {
      slots := new Record[maxVhost](_ => EMPTY);
      rows, reported, flushed := [], map[], map[];
      new;
      NothingYet(reported, rows);
    }

    /** Lines 419-439: where the record goes. */
    method FindSlot(channel: Channel) returns (i: nat)
      requires Valid()
      ensures i == if RowOf(rows, channel) < |rows| then RowOf(rows, channel) else |rows|
    {
      i := 0;
      while i < slots.Length
        invariant 0 <= i <= |rows| && forall j :: 0 <= j < i ==> rows[j].channel != channel
      {
        if i < |rows| { RowFacts(rows, i); }
        if slots[i].timestamp == 0 {
          return;
        }
        if channel == slots[i].channel {
          return;
        }
        i := i + 1;
      }
    }

    /** Lines 419-439: one record of read_billing_info. */
    method Add(r: Record, ghost sent: bool)
      requires Valid() && Storable(r)
      modifies slots, this`rows, this`reported
      ensures Valid() && rows == Added(old(rows), r, slots.Length)
      ensures reported == if sent then Report(old(reported), r) else old(reported)
    {
      var i := FindSlot(r.channel);
      ghost var before := rows;
      if i < |rows| { RowFacts(rows, i); }
      if i < slots.Length {
        var s := slots[i];
        if s.timestamp == 0 {
          slots[i] := Record(r.timestamp, r.interval, Overlay(r.channel, s.channel), r.fromClient, r.toClient);
        } else {
          slots[i] := Record(r.timestamp, r.interval, Overlay(r.channel, s.channel),
              (s.fromClient + r.fromClient) % WORD, (s.toClient + r.toClient) % WORD);
        }
      }
      AddedRows(before, r, slots.Length);
      rows := Added(before, r, slots.Length);
      reported := if sent then Report(reported, r) else reported;
    }

    /** writeFile: the lines of the file, none if nothing was pending. */
    method Flush() returns (lines: seq<string>)
      requires Valid() && slots.Length > 0
      modifies slots, this`rows, this`flushed
      ensures Valid() && rows == [] && Written(lines, old(rows)) && flushed == FlushAll(old(flushed), old(rows))
      ensures old(Conserved(reported, flushed, rows)) ==> Conserved(reported, flushed, rows)
      ensures old(Exact(reported, flushed, rows)) ==> Exact(reported, flushed, rows)
    {
      if Conserved(reported, flushed, rows) { FlushBalance(reported, flushed, rows); }
      if Exact(reported, flushed, rows) { FlushExact(reported, flushed, rows); }
      lines := [];
      if 0 < |rows| { RowFacts(rows, 0); }
      if slots[0].timestamp == 0 {
        assert rows == [];
        return;
      }
      ghost var all := rows;
      for i := 0 to slots.Length
        invariant rows == all && flushed == old(flushed)
        invariant forall j :: 0 <= j < i ==> slots[j] == EMPTY
        invariant forall j :: i <= j < slots.Length ==> slots[j] == if j < |all| then all[j] else EMPTY
        invariant Written(lines, Head(all, i))
      {
        if i < |all| { RowFacts(all, i); }
        if slots[i].channel.name != "" {
          var line := Format(slots[i]);
          WrittenMore(lines, all, i, line);
          lines := lines + [line];
          slots[i] := EMPTY;
        }
      }
      assert Head(all, slots.Length) == all;
      flushed := FlushAll(flushed, all);
      rows := [];
    }

    /** Lines 407-440: one turn of the loop of read_billing_info. */
    method ReadLine(buf: string, at: nat, data0: Record, ghost recs: seq<Record>) returns (size: nat, data: Record)
      requires Valid() && at + 1 < |buf| && Yields(buf, at, data0, recs)
      modifies slots, this`rows, this`reported
      ensures Valid() && recs != [] && data == recs[0] && at + size <= |buf| && Yields(buf, at + size, data, recs[1..])
      ensures rows == Added(old(rows), data, slots.Length)
      ensures ReportAll(old(reported), Sent(buf, at, data0, recs)) ==
              ReportAll(reported, Sent(buf, at + size, data, recs[1..]))
    {
      size, data := ParseBillingd(buf, at, data0);
      SentStep(buf, at, data0, recs, reported);
      Add(data, |Fields(buf, at)| == 5);
    }

    /**
     read_billing_info after a read that ended with a line; junk is what billing_data held before.  With room
     for all channels the balance is kept exactly if the lines without five fields added no bytes.
     */
    method ReadBillingInfo(buf: string, junk: Record, ghost recs: seq<Record>)
      requires Valid() && Yields(buf, 0, junk, recs)
      modifies slots, this`rows, this`reported
      ensures Valid() && rows == AddedAll(old(rows), recs, slots.Length)
      ensures reported == ReportAll(old(reported), Sent(buf, 0, junk, recs))
      ensures forall i {:trigger Stamped(old(rows), recs, rows, i)} :: Stamped(old(rows), recs, rows, i)
      ensures old(Conserved(reported, flushed, rows)) && |Channels(old(rows)) + Channels(recs)| <= slots.Length ==>
        (Conserved(reported, flushed, rows) <==> AllSent(recs, Sent(buf, 0, junk, recs)))
      ensures old(Exact(reported, flushed, rows)) && |Channels(old(rows)) + Channels(recs)| <= slots.Length ==>
        (Exact(reported, flushed, rows) <==>
          AllSent(recs, Sent(buf, 0, junk, recs)) && AllBelow(old(rows), Sent(buf, 0, junk, recs)))
    {
      ghost var sent := Sent(buf, 0, junk, recs);
      YieldsStorable(buf, 0, junk, recs);
      if |Channels(rows) + Channels(recs)| <= slots.Length {
        if Conserved(reported, flushed, rows) { SentBalance(reported, flushed, rows, recs, sent, slots.Length); }
        if Exact(reported, flushed, rows) { SentExact(reported, flushed, rows, recs, sent, slots.Length); }
      }
      forall i ensures Stamped(rows, recs, AddedAll(rows, recs, slots.Length), i) {
        if i >= 0 { LastTimes(rows, recs, slots.Length, i); }
      }
      ReadLines(buf, junk, recs);
    }

    /** Lines 407-440 */
    method ReadLines(buf: string, junk: Record, ghost recs: seq<Record>)
      requires Valid() && Yields(buf, 0, junk, recs)
      modifies slots, this`rows, this`reported
      ensures Valid() && rows == AddedAll(old(rows), recs, slots.Length)
      ensures reported == ReportAll(old(reported), Sent(buf, 0, junk, recs))
    {
      var len, at, data := |buf|, 0, junk;
      ghost var left := recs;
      while len > 1
        invariant Valid() && 0 <= at <= |buf| && len == |buf| - at && Yields(buf, at, data, left)
        invariant AddedAll(old(rows), recs, slots.Length) == AddedAll(rows, left, slots.Length)
        invariant ReportAll(old(reported), Sent(buf, 0, junk, recs)) == ReportAll(reported, Sent(buf, at, data, left))
        decreases |left|
      {
        var size;
        size, data := ReadLine(buf, at, data, left);
        at, len := at + size, len - size;
        left := left[1..];
      }
    }
  }

  // ----- the file read back -----

  lemma FirstLine(buf: string, i: nat, lines: seq<string>, rows: seq<Record>)
    requires Rows(rows) && Written(lines, rows) && rows != [] && Sits(buf, i, Concat(lines)) && WellFormed(rows[0])
    ensures OneLine(buf, i, rows[0]) && LineEnd(buf, i) + 1 == i + |lines[0]|
  {
    WrittenRest(lines, rows);
    RowsMost(rows);
    SitsSplit(buf, i, lines[0], Concat(lines[1..]));
    forall before ensures |Fields(buf, i)| == 5 && Filled(Fields(buf, i), before) == rows[0] {
      LineBack(buf, i, rows[0], before);
    }
    LineBack(buf, i, rows[0], EMPTY);
  }

  lemma OtherLines(buf: string, i: nat, lines: seq<string>, rows: seq<Record>)
    requires Rows(rows) && Written(lines, rows) && rows != [] && Sits(buf, i, Concat(lines))
    ensures Rows(rows[1..]) && Written(lines[1..], rows[1..]) && Sits(buf, i + |lines[0]|, Concat(lines[1..]))
    ensures |Concat(lines)| == |lines[0]| + |Concat(lines[1..])|
  {
    WrittenRest(lines, rows);
    RowsMost(rows);
    SitsSplit(buf, i, lines[0], Concat(lines[1..]));
  }

  /** A flushed file holds exactly the records it was written for. */
  lemma {:induction false} FileBack(buf: string, i: nat, lines: seq<string>, rows: seq<Record>)
    requires Rows(rows) && Written(lines, rows) && Sits(buf, i, Concat(lines)) && i + |Concat(lines)| == |buf|
    requires forall k :: 0 <= k < |rows| ==> WellFormed(rows[k])
    ensures Holds(buf, i, rows)
    decreases |rows|
  {
    if rows != [] {
      FirstLine(buf, i, lines, rows);
      OtherLines(buf, i, lines, rows);
      FileBack(buf, i + |lines[0]|, lines[1..], rows[1..]);
    }
  }

  // ----- a record lost -----

  /** A table of one slot that is taken loses the bytes of a second channel. */
  method LosesRecord() returns (t: Table)
    ensures fresh(t) && fresh(t.slots) && t.Valid() && t.slots.Length == 1 && !Conserved(t.reported, t.flushed, t.rows)
  {
    t := new Table(1);
    var a, b := Record(1, 60, Channel("a"), 5, 0), Record(2, 60, Channel("b"), 7, 0);
    AddBalance(t.reported, t.flushed, t.rows, a, 1);
    assert HasPlace(t.rows, a.channel, 1);
    t.Add(a, true);
    AddBalance(t.reported, t.flushed, t.rows, b, 1);
    assert t.rows == [a] && !HasPlace(t.rows, b.channel, 1);
    t.Add(b, true);
  }

  /** Two records of one channel whose bytes add up to 2^64: the row is back at 0 and the bytes are gone. */
  method CounterWraps() returns (t: Table)
    ensures fresh(t) && fresh(t.slots) && t.Valid() && t.slots.Length == 1
    ensures Conserved(t.reported, t.flushed, t.rows) && !Exact(t.reported, t.flushed, t.rows)
  {
    t := new Table(1);
    var a, b := Record(1, 60, Channel("a"), WORD - 1, 0), Record(2, 60, Channel("a"), 1, 0);
    AddBalance(t.reported, t.flushed, t.rows, a, 1);
    AddExact(t.reported, t.flushed, t.rows, a, 1);
    OneRow(t.rows, a);
    t.Add(a, true);
    AddBalance(t.reported, t.flushed, t.rows, b, 1);
    AddExact(t.reported, t.flushed, t.rows, b, 1);
    SecondWraps(t.rows, a, b);
    t.Add(b, true);
  }

  lemma OneRow(rows: seq<Record>, a: Record)
    requires rows == [] && Storable(a)
    ensures Added(rows, a, 1) == [a] && HasPlace(rows, a.channel, 1) && BelowWord(rows, [a], a.channel)
  {
    assert [a][1..] == [];
  }

  lemma SecondWraps(rows: seq<Record>, a: Record, b: Record)
    requires rows == [a] && a.channel == b.channel && a.fromClient + b.fromClient >= WORD
    ensures HasPlace(rows, b.channel, 1) && !BelowWord(rows, [b], b.channel)
  {
    var c := b.channel;
    assert PendingIn(rows, 0, c).up == 0;
    assert Pending(rows, c).up == a.fromClient;
    assert [b][1..] == [];
    assert Total([b], c).up == b.fromClient;
  }

  /** A first line without five fields bills whatever was in memory. */
  method JunkIsBilled(junk: Record) returns (t: Table)
    requires Storable(junk) && junk.fromClient > 0
    ensures fresh(t) && fresh(t.slots) && t.Valid() && t.rows == [junk] && !Conserved(t.reported, t.flushed, t.rows)
  {
    t := new Table(1);
    JunkYielded("x\n", junk);
    JunkNotSent(junk, [junk], Sent("x\n", 0, junk, [junk]));
    t.ReadBillingInfo("x\n", junk, [junk]);
  }

  lemma JunkYielded(buf: string, junk: Record)
    requires buf == "x\n" && Storable(junk)
    ensures Yields(buf, 0, junk, [junk]) && Sent(buf, 0, junk, [junk]) == []
    ensures AddedAll([], [junk], 1) == [junk] && |Channels([]) + Channels([junk])| <= 1
  {
    assert LineEnd(buf, 1) == 1 && LineEnd(buf, 0) == 1;
    assert Fields(buf, 1) == [];
    assert |Fields(buf, 0)| == 1;
    var one := [junk];
    assert one[1..] == [];
    assert Yields(buf, 2, junk, one[1..]);
    assert Channels([]) + Channels([junk]) == {junk.channel};
  }

  lemma JunkNotSent(junk: Record, recs: seq<Record>, sent: seq<Record>)
    requires recs == [junk] && sent == [] && 0 < junk.fromClient < WORD
    ensures !AllSent(recs, sent)
  {
    var c := junk.channel;
    assert recs[1..] == [];
    assert Total(recs, c).up == 0 + junk.fromClient && Total(sent, c).up == 0;
    CongruentSame(0, 0);
    ModShift(0, 0, junk.fromClient);
    assert !SentAt(recs, sent, c);
  }
}
