/**
 Wildcard host names (src/core/ngx_hash.c, lines 52-143 and 455-597).  Names are stored
 with their labels reversed: "*.example.com" as "com.example." and ".example.com" as
 "com.example".  A sorted list of them is compiled into nested tables, one level per
 label; a lookup takes labels off the end of the name.  One level of table is the list
 of its labels in order of insertion; that the packed hash finds a label is the subject
 of HashPack.
 */
module WildcardHash {

  /** A pointer to the caller's data; NULL is None. */
  type Value = nat
  datatype Option = None | Some(value: Value)

  datatype Entry = Entry(key: string, value: Value)

  /** The two low bits of a slot's value: 00, 01, 10, 11 in the order of the source's comment. */
  datatype Slot = Data(value: Value) | StarData(value: Value) | Sub(t: Table) | StarSub(t: Table)

  /** ngx_hash_wildcard_t */
  datatype Table = Table(value: Option, slots: seq<(string, Slot)>)

  // ----- labels -----

  /** The index of the first dot, or the length. */
  function Cut(s: string): (n: nat)
    ensures n <= |s| && '.' !in s[..n] && (n < |s| ==> s[n] == '.')
  {
    if s == "" || s[0] == '.' then 0
    else
      var m := Cut(s[1..]);
      assert s[..m + 1] == [s[0]] + s[1..][..m];
      m + 1
  }

  function First(s: string): string { s[..Cut(s)] }
  predicate Dot(s: string) { Cut(s) < |s| }
  function Rest(s: string): string { if Dot(s) then s[Cut(s) + 1..] else "" }

  lemma Joined(s: string)
    ensures s == if Dot(s) then First(s) + "." + Rest(s) else First(s)
  {
  }

  /** The first label is determined by where the first dot is. */
  lemma CutIs(s: string, n: nat)
    requires n <= |s| && '.' !in s[..n] && (n < |s| ==> s[n] == '.')
    ensures Cut(s) == n
  {
    var m := Cut(s);
    assert forall i :: 0 <= i < n ==> s[i] in s[..n];
    assert forall i :: 0 <= i < m ==> s[i] in s[..m];
  }

  lemma FirstStep(s: string)
    ensures s == "" || s[0] == '.' ==> First(s) == ""
    ensures s != "" && s[0] != '.' ==>
            First(s) == [s[0]] + First(s[1..]) && Dot(s) == Dot(s[1..]) && Rest(s) == Rest(s[1..])
  {
    if s != "" && s[0] != '.' { assert s[1..][..Cut(s[1..])] == s[1..Cut(s)]; }
  }

  // ----- meaning -----

  /** "*.x" matches names with more labels, ".x" also x itself; rq has its labels reversed. */
  predicate Matches(k: string, rq: string) {
    if k != "" && k[|k| - 1] == '.' then k <= rq else k == rq || k + "." <= rq
  }

  /** e is the longest entry that matches. */
  ghost predicate IsBest(names: seq<Entry>, rq: string, e: Entry) {
    e in names && Matches(e.key, rq) && forall f :: f in names && Matches(f.key, rq) ==> |f.key| <= |e.key|
  }

  /** r is the value of the longest match; without a match it is NULL or the level's own value. */
  ghost predicate IsAnswer(names: seq<Entry>, rq: string, own: Option, r: Option) {
    || (exists e :: IsBest(names, rq, e) && r == Some(e.value))
    || ((forall f :: f in names ==> !Matches(f.key, rq)) && (r == None || r == own))
  }

  // ----- lookup -----

  /** Lines 88-142, on the name with its labels reversed: what a slot answers. */
  function AskSlot(slot: Slot, rq: string): Option
    decreases |rq|, 0, 0
  {
    match slot
    case Data(v) => Some(v)
    case StarData(v) => if Dot(rq) then Some(v) else None
    case Sub(t) => if Dot(rq) then OrElse(Ask(t, Rest(rq)), t.value) else t.value
    case StarSub(t) => if Dot(rq) then OrElse(Ask(t, Rest(rq)), t.value) else None
  }

  function OrElse(a: Option, b: Option): Option { if a.Some? then a else b }

  function Ask(t: Table, rq: string): Option
    decreases |rq|, 2, 0
  {
    AskIn(t.value, t.slots, rq)
  }

  function AskIn(own: Option, slots: seq<(string, Slot)>, rq: string): Option
    decreases |rq|, 1, |slots|
  {
    if slots == [] then own
    else if slots[0].0 == First(rq) then AskSlot(slots[0].1, rq)
    else AskIn(own, slots[1..], rq)
  }

  /** Where the last label starts. */
  function BackCut(s: string): (n: nat)
    ensures n <= |s| && '.' !in s[n..] && (n > 0 ==> s[n - 1] == '.')
  {
    if s == "" || s[|s| - 1] == '.' then |s|
    else
      var m := BackCut(s[..|s| - 1]);
      assert s[m..] == s[..|s| - 1][m..] + [s[|s| - 1]];
      m
  }

  /** The name with its labels in reverse order. */
  function Reversed(s: string): string
    decreases |s|
  {
    var n := BackCut(s);
    if n == 0 then s else s[n..] + "." + Reversed(s[..n - 1])
  }

  lemma ReversedParts(s: string)
    ensures var n := BackCut(s);
      First(Reversed(s)) == s[n..] && (Dot(Reversed(s)) <==> n > 0) &&
        (n > 0 ==> Rest(Reversed(s)) == Reversed(s[..n - 1]))
  {
    var n := BackCut(s);
    if n == 0 {
      assert s[0..] == s;
      CutIs(s, |s|);
    } else {
      Headed(s[n..], Reversed(s[..n - 1]));
    }
  }

  lemma Headed(a: string, b: string)
    requires '.' !in a
    ensures var s := a + "." + b; First(s) == a && Dot(s) && Rest(s) == b
  {
    var s := a + "." + b;
    assert s[..|a|] == a && s[|a|] == '.' && s[|a| + 1..] == b;
    CutIs(s, |a|);
  }

  /** ngx_hash_find on one level, then what the slot found says. */
  method FindSlot(slots: seq<(string, Slot)>, key: string) returns (found: bool, slot: Slot)
    ensures found ==> forall own, rq :: First(rq) == key ==> AskIn(own, slots, rq) == AskSlot(slot, rq)
    ensures !found ==> forall own, rq :: First(rq) == key ==> AskIn(own, slots, rq) == own
  {
    slot := Data(0);
    for i := 0 to |slots|
      invariant forall own, rq :: First(rq) == key ==> AskIn(own, slots, rq) == AskIn(own, slots[i..], rq)
    {
      if slots[i].0 == key {
        return true, slots[i].1;
      }
      assert slots[i..][1..] == slots[i + 1..];
    }
    found := false;
  }

  /** ngx_hash_find_wc_head */
  method FindWcHead(hwc: Table, name: string) returns (r: Option)
    ensures r == Ask(hwc, Reversed(name))
    decreases |name|
  {
    var n := |name|;
    while n > 0 && name[n - 1] != '.'
      invariant 0 <= n <= |name| && '.' !in name[n..]
    {
      n := n - 1;
      assert name[n..] == [name[n]] + name[n + 1..];
    }
    BackCutIs(name, n);
    ReversedParts(name);
    var found, slot := FindSlot(hwc.slots, name[n..]);
    if !found {
      return hwc.value;
    }
    match slot {
      case Sub(t) =>
        if n == 0 { return t.value; }
        r := FindWcHead(t, name[..n - 1]);
        if r.Some? { return r; }
        return t.value;
      case StarSub(t) =>
        if n == 0 { return None; }
        r := FindWcHead(t, name[..n - 1]);
        if r.Some? { return r; }
        return t.value;
      case StarData(v) =>
        if n == 0 { return None; }
        return Some(v);
      case Data(v) =>
        return Some(v);
    }
  }

  lemma BackCutIs(s: string, n: nat)
    requires n <= |s| && '.' !in s[n..] && (n > 0 ==> s[n - 1] == '.')
    ensures BackCut(s) == n
  {
    var m := BackCut(s);
    assert forall i :: m <= i < |s| ==> s[i] in s[m..];
    assert forall i :: n <= i < |s| ==> s[i] in s[n..];
  }

  // ----- the order of ngx_dns_strcmp -----

  /** '.' is the lowest character of a host name. */
  function Rank(c: char): int { if c == '.' then ' ' as int else c as int }

  predicate Less(a: string, b: string) {
    if b == "" then false
    else if a == "" then true
    else if a[0] == b[0] then Less(a[1..], b[1..])
    else Rank(a[0]) < Rank(b[0])
  }

  /** Characters that may occur in a host name: none below or equal to ' '. */
  predicate HostName(s: string) { forall c :: c in s ==> c > ' ' }

  /** Names with the same first label are neighbours in the order. */
  lemma {:induction false} LabelsTogether(a: string, b: string, c: string)
    requires Less(a, b) && Less(b, c) && First(a) == First(c) && HostName(b)
    ensures First(b) == First(a)
    decreases |b|
  {
    FirstStep(a);
    FirstStep(b);
    FirstStep(c);
    if a != "" && a[0] != '.' {
      assert forall c :: c in b[1..] ==> c in b;
      LabelsTogether(a[1..], b[1..], c[1..]);
    } else {
      assert b[0] in b;
    }
  }

  /** Behind a common first label the order is that of the rests; the name without a dot comes first. */
  lemma {:induction false} RestOrder(a: string, b: string)
    requires Less(a, b) && First(a) == First(b)
    ensures Dot(b) && (Dot(a) ==> Less(Rest(a), Rest(b)))
    decreases |a|
  {
    FirstStep(a);
    FirstStep(b);
    if a != "" && a[0] != '.' {
      RestOrder(a[1..], b[1..]);
    }
  }

  // ----- matching by labels -----

  lemma MatchFirst(k: string, rq: string)
    requires Matches(k, rq)
    ensures First(k) == First(rq)
  {
    var n := Cut(k);
    if k != rq {
      var p := if k != "" && k[|k| - 1] == '.' then k else k + ".";
      assert p <= rq && rq[..n] == p[..n] == k[..n] && rq[n] == p[n] == '.';
      CutIs(rq, n);
    }
  }

  /** An entry of one label matches every name below it, and itself if it has no star. */
  lemma MatchOwn(k: string, rq: string)
    requires First(k) == First(rq) && Rest(k) == ""
    ensures Matches(k, rq) <==> (Dot(k) ==> Dot(rq))
  {
    Joined(k);
    Joined(rq);
  }

  /** An entry of several labels matches if its rest matches the rest of the name. */
  lemma MatchRest(k: string, rq: string)
    requires First(k) == First(rq) && Dot(k) && Rest(k) != ""
    ensures Matches(k, rq) <==> Dot(rq) && Matches(Rest(k), Rest(rq))
  {
    Joined(k);
    Joined(rq);
    var l, x, y := First(k) + ".", Rest(k), Rest(rq);
    assert k[|k| - 1] == x[|x| - 1];
    if Dot(rq) {
      PrefixBehind(l, x, y);
      PrefixBehind(l, x + ".", y);
      assert k + "." == l + (x + ".");
      if k == rq { assert x == k[|l|..] && y == rq[|l|..]; }
    } else {
      assert k[|First(k)|] == '.' && |rq| == |First(k)|;
    }
  }

  lemma PrefixBehind(l: string, x: string, y: string)
    ensures l + x <= l + y <==> x <= y
  {
    if l + x <= l + y { assert x == (l + x)[|l|..] && y == (l + y)[|l|..]; }
  }

  // ----- compiling -----

  /** The list as ngx_hash_keys_array builds and sorts it: distinct, and never both "x" and "x.". */
  ghost predicate Sorted(names: seq<Entry>) {
    forall i, j :: 0 <= i < j < |names| ==> Less(names[i].key, names[j].key)
  }

  ghost predicate Paired(a: Entry, b: Entry) { a.key + "." == b.key }

  ghost predicate WellFormed(names: seq<Entry>) {
    && Sorted(names)
    && (forall e :: e in names ==> HostName(e.key))
    && (forall a, b :: a in names && b in names ==> !Paired(a, b))
  }

  /** The slots answer for the names, whatever the level's own value is. */
  ghost predicate Answers(slots: seq<(string, Slot)>, names: seq<Entry>) {
    forall own, rq {:trigger AnswersFor(slots, names, own, rq)} :: AnswersFor(slots, names, own, rq)
  }

  ghost predicate AnswersFor(slots: seq<(string, Slot)>, names: seq<Entry>, own: Option, rq: string) {
    IsAnswer(names, rq, own, AskIn(own, slots, rq))
  }

  function Rests(names: seq<Entry>): (r: seq<Entry>)
    ensures |r| == |names| && forall i :: 0 <= i < |r| ==> r[i] == Entry(Rest(names[i].key), names[i].value)
  {
    seq(|names|, i requires 0 <= i < |names| => Entry(Rest(names[i].key), names[i].value))
  }

  /** The names of one first label: an entry of that label alone, if any, and entries below it. */
  datatype Group = Group(own: seq<Entry>, kids: seq<Entry>)

  ghost predicate IsGroup(g: Group, names: seq<Entry>, l: string) {
    && names != [] && names == g.own + g.kids && |g.own| <= 1
    && (forall e :: e in names ==> First(e.key) == l)
    && (forall e :: e in g.own ==> Rest(e.key) == "")
    && (forall e :: e in g.kids ==> Dot(e.key) && Rest(e.key) != "")
  }

  /** The slot that lines 564-586 make for the group. */
  function SlotFor(g: Group, sub: seq<(string, Slot)>): Slot
    requires g.own + g.kids != []
  {
    var star := Dot((g.own + g.kids)[0].key);
    if g.kids == [] then if star then StarData(g.own[0].value) else Data(g.own[0].value)
    else
      var t := Table(if g.own == [] then None else Some(g.own[0].value), sub);
      if star then StarSub(t) else Sub(t)
  }

  lemma GroupAnswer(g: Group, names: seq<Entry>, l: string, sub: seq<(string, Slot)>, rq: string, own: Option)
    requires IsGroup(g, names, l) && First(rq) == l && (g.kids != [] ==> Answers(sub, Rests(g.kids)))
    ensures IsAnswer(names, rq, own, AskSlot(SlotFor(g, sub), rq))
  {
    if !Dot(rq) {
      GroupEnds(g, names, l, sub, rq, own);
    } else if g.kids == [] {
      GroupAlone(g, names, l, sub, rq, own);
    } else {
      GroupGoesOn(g, names, l, sub, rq, own);
    }
  }

  lemma GroupAlone(g: Group, names: seq<Entry>, l: string, sub: seq<(string, Slot)>, rq: string, own: Option)
    requires IsGroup(g, names, l) && First(rq) == l && Dot(rq) && g.kids == []
    ensures IsAnswer(names, rq, own, AskSlot(SlotFor(g, sub), rq))
  {
    assert g.own[0] in g.own && names[0] == g.own[0] && names[0] in names;
    MatchOwn(g.own[0].key, rq);
    OwnIsBest(g, names, rq);
  }

  lemma GroupGoesOn(g: Group, names: seq<Entry>, l: string, sub: seq<(string, Slot)>, rq: string, own: Option)
    requires IsGroup(g, names, l) && First(rq) == l && Dot(rq) && g.kids != [] && Answers(sub, Rests(g.kids))
    ensures IsAnswer(names, rq, own, AskSlot(SlotFor(g, sub), rq))
  {
    var v := if g.own == [] then None else Some(g.own[0].value);
    var a := AskIn(v, sub, Rest(rq));
    GroupSlot(g, sub, rq, v);
    assert AnswersFor(sub, Rests(g.kids), v, Rest(rq));
    KidsAnswer(g, names, l, rq, a, v);
    AnyOwn(names, rq, own, OrElse(a, v));
  }

  lemma GroupSlot(g: Group, sub: seq<(string, Slot)>, rq: string, v: Option)
    requires Dot(rq) && g.kids != [] && v == (if g.own == [] then None else Some(g.own[0].value))
    ensures AskSlot(SlotFor(g, sub), rq) == OrElse(AskIn(v, sub, Rest(rq)), v)
  {
  }

  lemma AnyOwn(names: seq<Entry>, rq: string, own: Option, r: Option)
    requires IsAnswer(names, rq, None, r)
    ensures IsAnswer(names, rq, own, r)
  {
  }

  /** The name ends with this label: only the group's own entry can match. */
  lemma GroupEnds(g: Group, names: seq<Entry>, l: string, sub: seq<(string, Slot)>, rq: string, own: Option)
    requires IsGroup(g, names, l) && First(rq) == l && !Dot(rq)
    ensures IsAnswer(names, rq, own, AskSlot(SlotFor(g, sub), rq))
  {
    forall e | e in g.kids ensures !Matches(e.key, rq) { assert e in names; MatchRest(e.key, rq); }
    if g.own == [] { EndsNowhere(g, names, l, sub, rq, own); } else { EndsAtOwn(g, names, l, sub, rq, own); }
  }

  lemma EndsNowhere(g: Group, names: seq<Entry>, l: string, sub: seq<(string, Slot)>, rq: string, own: Option)
    requires IsGroup(g, names, l) && First(rq) == l && !Dot(rq) && g.own == []
    requires forall e :: e in g.kids ==> !Matches(e.key, rq)
    ensures IsAnswer(names, rq, own, AskSlot(SlotFor(g, sub), rq))
  {
    assert names[0] in names;
    assert names[0] == g.kids[0] && g.kids[0] in g.kids;
  }

  lemma EndsAtOwn(g: Group, names: seq<Entry>, l: string, sub: seq<(string, Slot)>, rq: string, own: Option)
    requires IsGroup(g, names, l) && First(rq) == l && !Dot(rq) && g.own != []
    requires forall e :: e in g.kids ==> !Matches(e.key, rq)
    ensures IsAnswer(names, rq, own, AskSlot(SlotFor(g, sub), rq))
  {
    assert g.own[0] in g.own && names[0] == g.own[0] && names[0] in names;
    MatchOwn(g.own[0].key, rq);
    if !Dot(g.own[0].key) { OwnIsBest(g, names, rq); }
  }

  /** Without a match among the kids the group's own entry is the only one. */
  lemma OwnIsBest(g: Group, names: seq<Entry>, rq: string)
    requires names == g.own + g.kids && |g.own| == 1 && Matches(g.own[0].key, rq) && forall e :: e in g.kids ==>
             !Matches(e.key, rq)
    ensures IsBest(names, rq, g.own[0])
  {
    assert g.own[0] in names;
    forall f | f in names && Matches(f.key, rq) ensures f == g.own[0] { assert f in g.own || f in g.kids; }
  }

  /** The best kid beats the group's own entry. */
  lemma KidsAnswer(g: Group, names: seq<Entry>, l: string, rq: string, r: Option, v: Option)
    requires IsGroup(g, names, l) && First(rq) == l && Dot(rq) && IsAnswer(Rests(g.kids), Rest(rq), v, r)
    requires v == if g.own == [] then None else Some(g.own[0].value)
    ensures IsAnswer(names, rq, None, OrElse(r, v))
  {
    var kids := Rests(g.kids);
    forall e | e in g.kids
      ensures Entry(Rest(e.key), e.value) in kids &&
        (Matches(e.key, rq) <==> Matches(Rest(e.key), Rest(rq)))
    {
      var i :| 0 <= i < |g.kids| && g.kids[i] == e;
      assert kids[i] == Entry(Rest(e.key), e.value);
      assert e in names;
      MatchRest(e.key, rq);
    }
    if g.own != [] { assert g.own[0] in g.own && g.own[0] in names; MatchOwn(g.own[0].key, rq); }
    if k :| IsBest(kids, Rest(rq), k) && r == Some(k.value) {
      var i :| 0 <= i < |kids| && kids[i] == k;
      BestKid(g, names, l, rq, i);
    } else {
      if g.own != [] { OwnIsBest(g, names, rq); }
      forall f | f in names && g.own == [] ensures !Matches(f.key, rq) { assert f in g.kids; }
    }
  }

  lemma BestKid(g: Group, names: seq<Entry>, l: string, rq: string, i: nat)
    requires IsGroup(g, names, l) && First(rq) == l && Dot(rq) && i < |g.kids| &&
             IsBest(Rests(g.kids), Rest(rq), Rests(g.kids)[i])
    ensures IsBest(names, rq, g.kids[i])
  {
    var e := g.kids[i];
    assert e in g.kids && e in names;
    MatchRest(e.key, rq);
    forall f | f in names && Matches(f.key, rq) ensures |f.key| <= |e.key| {
      if f in g.kids {
        var j :| 0 <= j < |g.kids| && g.kids[j] == f;
        KidBelow(g, names, l, rq, i, j);
      } else {
        assert f in g.own;
        LabelLength(f.key, l);
        LabelLength(e.key, l);
      }
    }
  }

  lemma LabelLength(k: string, l: string)
    requires First(k) == l
    ensures |k| == |l| + (if Dot(k) then 1 + |Rest(k)| else 0)
  {
    Joined(k);
  }

  lemma KidBelow(g: Group, names: seq<Entry>, l: string, rq: string, i: nat, j: nat)
    requires IsGroup(g, names, l) && First(rq) == l && Dot(rq) && i < |g.kids| && j < |g.kids|
    requires IsBest(Rests(g.kids), Rest(rq), Rests(g.kids)[i]) && Matches(g.kids[j].key, rq)
    ensures |g.kids[j].key| <= |g.kids[i].key|
  {
    var kids, e, f := Rests(g.kids), g.kids[i], g.kids[j];
    assert e in g.kids && f in g.kids && e in names && f in names && kids[j] in kids;
    MatchRest(f.key, rq);
    LabelLength(e.key, l);
    LabelLength(f.key, l);
  }

  /** Lines 487-494 */
  method FirstDot(key: string) returns (len: nat, dot: bool)
    ensures len == Cut(key) && dot == Dot(key)
  {
    len, dot := 0, false;
    while len < |key|
      invariant len <= |key| && '.' !in key[..len] && !dot
    {
      if key[len] == '.' {
        dot := true;
        break;
      }
      len := len + 1;
      assert key[..len] == key[..len - 1] + [key[len - 1]];
    }
    CutIs(key, len);
  }

  /** Lines 537-546: whether the run goes on at names[i]. */
  method InRun(names: seq<Entry>, n: nat, i: nat, len: nat, dot: bool) returns (same: bool)
    requires WellFormed(names) && n < i < |names|
    requires var k := names[n].key; dot == Dot(k) && len == Cut(k) + (if dot then 1 else 0)
    ensures var k, o := names[n].key, names[i].key;
      && (same <==> First(o) == First(k))
      && (same ==> Dot(o) && Rest(o) != "" && |o| >= Cut(k) + 1 && o[Cut(k) + 1..] == Rest(o))
  {
    var key, other := names[n].key, names[i].key;
    SameRun(names, n, i, len, dot);
    if !(key[..len] <= other) {
      return false;
    }
    if !dot && |other| > len && other[len] != '.' {
      return false;
    }
    return true;
  }

  /** Lines 517-562: the run of names with the first label of names[n], without that label. */
  method Gather(names: seq<Entry>, n: nat) returns (next: seq<Entry>, i: nat, ghost g: Group)
    requires WellFormed(names) && n < |names|
    ensures n < i <= |names| && IsGroup(g, names[n..i], First(names[n].key)) && next == Rests(g.kids)
    ensures forall j :: i <= j < |names| ==> First(names[j].key) != First(names[n].key)
    ensures g.own == StartGroup(names[n]).own
  {
    var key := names[n].key;
    var len, dot := FirstDot(key);
    var dotLen := len + 1;
    if dot {
      len := len + 1;
    }
    next := if |key| != len then [Entry(key[len..], names[n].value)] else [];
    GroupStarts(names, n);
    next, i, g := GatherRest(names, n, len, dotLen, dot, next, StartGroup(names[n]));
  }

  /** Lines 536-562 */
  method GatherRest(names: seq<Entry>, n: nat, len: nat, dotLen: nat, dot: bool, next0: seq<Entry>, ghost g0: Group)
      returns (next: seq<Entry>, i: nat, ghost g: Group)
    requires WellFormed(names) && n < |names| && dotLen == Cut(names[n].key) + 1
    requires var k := names[n].key; dot == Dot(k) && len == Cut(k) + (if dot then 1 else 0)
    requires IsGroup(g0, names[n..n + 1], First(names[n].key)) && next0 == Rests(g0.kids)
    ensures n < i <= |names| && IsGroup(g, names[n..i], First(names[n].key)) && next == Rests(g.kids)
    ensures forall j :: i <= j < |names| ==> First(names[j].key) != First(names[n].key)
    ensures g.own == g0.own
  {
    next, i, g := next0, n + 1, g0;
    while i < |names|
      invariant n < i <= |names| && IsGroup(g, names[n..i], First(names[n].key)) && next == Rests(g.kids) &&
                g.own == g0.own
    {
      var same := InRun(names, n, i, len, dot);
      if !same {
        break;
      }
      next := next + [Entry(names[i].key[dotLen..], names[i].value)];
      GroupGrows(g, names, n, i);
      g := g.(kids := g.kids + [names[i]]);
      i := i + 1;
    }
    RunEnds(names, n, i);
  }

  /** The first name of a run is its own entry if nothing follows the label and its dot. */
  function StartGroup(e: Entry): Group {
    if Rest(e.key) == "" then Group([e], []) else Group([], [e])
  }

  lemma GroupStarts(names: seq<Entry>, n: nat)
    requires n < |names|
    ensures IsGroup(StartGroup(names[n]), names[n..n + 1], First(names[n].key))
    ensures var k := names[n].key; var len := Cut(k) + (if Dot(k) then 1 else 0);
      Rests(StartGroup(names[n]).kids) == if |k| != len then [Entry(k[len..], names[n].value)] else []
  {
    var k := names[n].key;
    LabelLength(k, First(k));
    RestAt(k);
    assert names[n..n + 1] == [names[n]];
  }

  lemma RestAt(k: string)
    ensures var len := Cut(k) + (if Dot(k) then 1 else 0); len <= |k| && k[len..] == Rest(k)
  {
    NothingLeft(k);
  }

  lemma NothingLeft(k: string)
    ensures k[|k|..] == ""
  {
  }

  lemma GroupGrows(g: Group, names: seq<Entry>, n: nat, i: nat)
    requires n < i < |names| && IsGroup(g, names[n..i], First(names[n].key))
    requires var o := names[i].key; First(o) == First(names[n].key) && Dot(o) && Rest(o) != ""
    ensures var g' := g.(kids := g.kids + [names[i]]);
      IsGroup(g', names[n..i + 1], First(names[n].key)) &&
        Rests(g'.kids) == Rests(g.kids) + [Entry(Rest(names[i].key), names[i].value)]
  {
    assert names[n..i + 1] == names[n..i] + [names[i]];
    assert g.own + (g.kids + [names[i]]) == g.own + g.kids + [names[i]];
  }

  /** The tests of lines 537-546 say whether names[i] has the first label of names[n]. */
  lemma SameRun(names: seq<Entry>, n: nat, i: nat, len: nat, dot: bool)
    requires WellFormed(names) && n < i < |names|
    requires var k := names[n].key; dot == Dot(k) && len == Cut(k) + (if dot then 1 else 0)
    ensures var k, o := names[n].key, names[i].key;
      && (First(o) == First(k) <==> k[..len] <= o && (!dot && |o| > len ==> o[len] == '.'))
      && (First(o) == First(k) ==> Dot(o) && Rest(o) != "" && |o| >= Cut(k) + 1 && o[Cut(k) + 1..] == Rest(o))
  {
    var k, o := names[n].key, names[i].key;
    assert Less(k, o);
    Joined(k);
    Joined(o);
    if First(o) == First(k) {
      RestOrder(k, o);
      assert names[n] in names && names[i] in names;
      assert !Paired(names[n], names[i]);
      NotSelf(k);
    }
    if k[..len] <= o && (!dot && |o| > len ==> o[len] == '.') {
      NotSelf(k);
      assert o[..Cut(k)] == k[..Cut(k)];
      CutIs(o, Cut(k));
    }
  }

  lemma {:induction false} NotSelf(k: string)
    ensures !Less(k, k) && !Less(k, "")
  {
    if k != "" { NotSelf(k[1..]); }
  }

  /** Beyond the run no name has its label. */
  lemma RunEnds(names: seq<Entry>, n: nat, i: nat)
    requires WellFormed(names) && n < i <= |names| && (i < |names| ==> First(names[i].key) != First(names[n].key))
    ensures forall j :: i <= j < |names| ==> First(names[j].key) != First(names[n].key)
  {
    forall j | i <= j < |names| ensures First(names[j].key) != First(names[n].key) {
      if i < j && First(names[j].key) == First(names[n].key) {
        assert names[i] in names;
        LabelsTogether(names[n].key, names[i].key, names[j].key);
      }
    }
  }

  // ----- one level down -----

  function Total(names: seq<Entry>): nat {
    if names == [] then 0 else |names[0].key| + 1 + Total(names[1..])
  }

  lemma {:induction false} TotalJoin(a: seq<Entry>, b: seq<Entry>)
    ensures Total(a + b) == Total(a) + Total(b)
  {
    if a == [] { assert a + b == b; } else { TotalJoin(a[1..], b); assert (a + b)[1..] == a[1..] + b; }
  }

  lemma {:induction false} RestsShorter(names: seq<Entry>)
    requires forall e :: e in names ==> Dot(e.key)
    ensures Total(Rests(names)) + |names| <= Total(names)
  {
    if names != [] {
      assert names[0] in names;
      assert Rests(names)[1..] == Rests(names[1..]);
      RestsShorter(names[1..]);
    }
  }

  lemma KidsShorter(names: seq<Entry>, n: nat, i: nat, g: Group, l: string)
    requires n < i <= |names| && IsGroup(g, names[n..i], l)
    ensures Total(Rests(g.kids)) < Total(names)
  {
    RestsShorter(g.kids);
    assert names == names[..n] + (g.own + g.kids) + names[i..];
    TotalJoin(names[..n] + (g.own + g.kids), names[i..]);
    TotalJoin(names[..n], g.own + g.kids);
    TotalJoin(g.own, g.kids);
    if g.kids == [] { assert g.own != []; }
  }

  lemma KidAt(names: seq<Entry>, n: nat, i: nat, g: Group, l: string, a: nat)
    requires n < i <= |names| && IsGroup(g, names[n..i], l) && a < |g.kids|
    ensures n + |g.own| + a < |names| && names[n + |g.own| + a] == g.kids[a] && g.kids[a] in names
    ensures First(g.kids[a].key) == l && Dot(g.kids[a].key) && g.kids[a].key == l + "." + Rest(g.kids[a].key)
  {
    assert names[n..i][|g.own| + a] == g.kids[a] && g.kids[a] in names[n..i] && g.kids[a] in g.kids;
    Joined(g.kids[a].key);
  }

  lemma KidsOrdered(names: seq<Entry>, n: nat, i: nat, g: Group, l: string, a: nat, b: nat)
    requires Sorted(names) && n < i <= |names| && IsGroup(g, names[n..i], l) && a < b < |g.kids|
    ensures Less(Rest(g.kids[a].key), Rest(g.kids[b].key))
  {
    KidAt(names, n, i, g, l, a);
    KidAt(names, n, i, g, l, b);
    RestOrder(g.kids[a].key, g.kids[b].key);
  }

  lemma KidsUnpaired(names: seq<Entry>, n: nat, i: nat, g: Group, l: string, a: nat, b: nat)
    requires n < i <= |names| && IsGroup(g, names[n..i], l) && a < |g.kids| && b < |g.kids| &&
             !Paired(g.kids[a], g.kids[b])
    ensures Rest(g.kids[a].key) + "." != Rest(g.kids[b].key)
  {
    KidAt(names, n, i, g, l, a);
    KidAt(names, n, i, g, l, b);
    var x := Rest(g.kids[a].key);
    assert l + "." + x + "." == l + "." + (x + ".");
  }

  lemma KidHost(e: Entry)
    requires HostName(e.key)
    ensures HostName(Rest(e.key))
  {
    assert forall c :: c in Rest(e.key) ==> c in e.key;
  }

  lemma KidsWellFormed(names: seq<Entry>, n: nat, i: nat, g: Group, l: string)
    requires WellFormed(names) && n < i <= |names| && IsGroup(g, names[n..i], l)
    ensures WellFormed(Rests(g.kids))
  {
    var kids := Rests(g.kids);
    assert Sorted(kids) by {
      forall a, b | 0 <= a < b < |kids| ensures Less(kids[a].key, kids[b].key) { KidsOrdered(names, n, i, g, l, a, b); }
    }
    forall e | e in kids ensures HostName(e.key) {
      var a: nat :| a < |kids| && kids[a] == e;
      KidAt(names, n, i, g, l, a);
      KidHost(g.kids[a]);
    }
    forall x, y | x in kids && y in kids ensures !Paired(x, y) {
      var a: nat :| a < |kids| && kids[a] == x;
      var b: nat :| b < |kids| && kids[b] == y;
      KidAt(names, n, i, g, l, a);
      KidAt(names, n, i, g, l, b);
      KidsUnpaired(names, n, i, g, l, a, b);
    }
  }

  // ----- one more slot -----

  predicate HasLabel(slots: seq<(string, Slot)>, l: string) {
    exists i :: 0 <= i < |slots| && slots[i].0 == l
  }

  lemma {:induction false} AskMore(own: Option, slots: seq<(string, Slot)>, l: string, slot: Slot, rq: string)
    requires !HasLabel(slots, l)
    ensures AskIn(own, slots + [(l, slot)], rq) == if First(rq) == l then AskSlot(slot, rq) else AskIn(own, slots, rq)
    decreases |slots|
  {
    var more := slots + [(l, slot)];
    if slots != [] {
      assert slots[0].0 != l;
      assert more[1..] == slots[1..] + [(l, slot)];
      assert forall i :: 0 <= i < |slots[1..]| ==> slots[1..][i] == slots[i + 1];
      AskMore(own, slots[1..], l, slot, rq);
    }
  }

  lemma AnswerJoin(a: seq<Entry>, b: seq<Entry>, rq: string, own: Option, r: Option)
    requires (IsAnswer(a, rq, own, r) && NoneMatch(b, rq)) || (NoneMatch(a, rq) && IsAnswer(b, rq, own, r))
    ensures IsAnswer(a + b, rq, own, r)
  {
    assert forall e :: e in a + b <==> e in a || e in b;
    if e :| IsBest(a, rq, e) && r == Some(e.value) && NoneMatch(b, rq) {
      assert IsBest(a + b, rq, e);
    } else if e :| IsBest(b, rq, e) && r == Some(e.value) && NoneMatch(a, rq) {
      assert IsBest(a + b, rq, e);
    }
  }

  ghost predicate NoneMatch(names: seq<Entry>, rq: string) { forall e :: e in names ==> !Matches(e.key, rq) }

  ghost predicate Listed(slots: seq<(string, Slot)>, names: seq<Entry>) {
    forall e {:trigger HasLabel(slots, First(e.key))} :: e in names ==> HasLabel(slots, First(e.key))
  }

  lemma OtherLabel(names: seq<Entry>, rq: string)
    requires forall e :: e in names ==> First(e.key) != First(rq)
    ensures NoneMatch(names, rq)
  {
    forall e | e in names ensures !Matches(e.key, rq) { if Matches(e.key, rq) { MatchFirst(e.key, rq); } }
  }

  lemma SlotAdded(slots: seq<(string, Slot)>, done: seq<Entry>, g: Group, run: seq<Entry>, l: string,
                  sub: seq<(string, Slot)>)
    requires Answers(slots, done) && Listed(slots, done) && !HasLabel(slots, l)
    requires IsGroup(g, run, l) && (g.kids != [] ==> Answers(sub, Rests(g.kids)))
    ensures Answers(slots + [(l, SlotFor(g, sub))], done + run) && Listed(slots + [(l, SlotFor(g, sub))], done + run)
  {
    var slot := SlotFor(g, sub);
    var more := slots + [(l, slot)];
    forall own, rq ensures AnswersFor(more, done + run, own, rq) {
      AskMore(own, slots, l, slot, rq);
      if First(rq) == l {
        OtherLabel(done, rq);
        GroupAnswer(g, run, l, sub, rq, own);
      } else {
        OtherLabel(run, rq);
        assert AnswersFor(slots, done, own, rq);
      }
      AnswerJoin(done, run, rq, own, AskIn(own, more, rq));
    }
    forall e | e in done + run ensures HasLabel(more, First(e.key)) {
      if e in done {
        assert HasLabel(slots, First(e.key));
        var i :| 0 <= i < |slots| && slots[i].0 == First(e.key);
        assert more[i].0 == First(e.key);
      } else {
        assert e in run && more[|slots|].0 == First(e.key);
      }
    }
  }

  /** The loop's slot is the one the group needs. */
  lemma SlotIs(names: seq<Entry>, n: nat, i: nat, g: Group, sub: seq<(string, Slot)>)
    requires n < i <= |names| && IsGroup(g, names[n..i], First(names[n].key)) && g.own == StartGroup(names[n]).own
    ensures var k, v := names[n].key, names[n].value;
      SlotFor(g, sub) ==
        if Rests(g.kids) != [] then
          var wdc := Table(if Cut(k) + (if Dot(k) then 1 else 0) == |k| then Some(v) else None, sub);
          if Dot(k) then StarSub(wdc) else Sub(wdc)
        else if Dot(k) then StarData(v) else Data(v)
  {
    Joined(names[n].key);
    assert (g.own + g.kids)[0] == names[n..i][0] == names[n];
  }

  lemma LabelsLeft(names: seq<Entry>, n: nat, i: nat, slots: seq<(string, Slot)>, slot: Slot)
    requires n < i <= |names| && LabelsFree(names, n, slots)
    requires forall j :: i <= j < |names| ==> First(names[j].key) != First(names[n].key)
    ensures LabelsFree(names, i, slots + [(First(names[n].key), slot)])
  {
    var more := slots + [(First(names[n].key), slot)];
    forall j | i <= j < |names| ensures !HasLabel(more, First(names[j].key)) {
      assert !HasLabel(slots, First(names[j].key));
      assert forall k :: 0 <= k < |slots| ==> slots[k].0 != First(names[j].key);
    }
  }

  /** The first n names are compiled, and the others have other first labels. */
  ghost predicate Compiled(names: seq<Entry>, n: nat, slots: seq<(string, Slot)>)
    requires n <= |names|
  {
    && Answers(slots, names[..n]) && Listed(slots, names[..n])
    && LabelsFree(names, n, slots)
  }

  ghost predicate LabelsFree(names: seq<Entry>, n: nat, slots: seq<(string, Slot)>) {
    forall j {:trigger HasLabel(slots, First(names[j].key))} ::
      n <= j < |names| ==> !HasLabel(slots, First(names[j].key))
  }

  lemma RunDone(names: seq<Entry>, n: nat, i: nat, g: Group, slots: seq<(string, Slot)>, sub: seq<(string, Slot)>)
    requires n < i <= |names| && Compiled(names, n, slots) && IsGroup(g, names[n..i], First(names[n].key))
    requires g.kids != [] ==> Answers(sub, Rests(g.kids))
    requires forall j :: i <= j < |names| ==> First(names[j].key) != First(names[n].key)
    ensures Compiled(names, i, slots + [(First(names[n].key), SlotFor(g, sub))])
  {
    assert !HasLabel(slots, First(names[n].key));
    SlotAdded(slots, names[..n], g, names[n..i], First(names[n].key), sub);
    assert names[..n] + names[n..i] == names[..i];
    LabelsLeft(names, n, i, slots, SlotFor(g, sub));
  }

  /** ngx_hash_wildcard_init: the slots of one level and, by recursion, of those below it. */
  method WildcardInit(names: seq<Entry>) returns (slots: seq<(string, Slot)>)
    requires WellFormed(names)
    ensures Answers(slots, names)
    decreases Total(names)
  {
    slots := [];
    var n := 0;
    while n < |names|
      invariant 0 <= n <= |names| && Compiled(names, n, slots)
    {
      var next, i, g := Gather(names, n);
      ghost var l := First(names[n].key);
      KidsShorter(names, n, i, g, l);
      KidsWellFormed(names, n, i, g, l);
      var len, dot := FirstDot(names[n].key);
      var sub, slot := [], Data(names[n].value);
      if next != [] {
        sub := WildcardInit(next);
        var own := len + (if dot then 1 else 0) == |names[n].key|;
        var wdc := Table(if own then Some(names[n].value) else None, sub);
        slot := if dot then StarSub(wdc) else Sub(wdc);
      } else if dot {
        slot := StarData(names[n].value);
      }
      SlotIs(names, n, i, g, sub);
      RunDone(names, n, i, g, slots, sub);
      slots := slots + [(names[n].key[..len], slot)];
      n := i;
    }
    assert names[..n] == names;
  }

  // ----- the whole lookup -----

  /** Two entries of the same length that match the same name are one entry. */
  lemma BestIsUnique(names: seq<Entry>, rq: string, e: Entry, f: Entry)
    requires WellFormed(names) && IsBest(names, rq, e) && IsBest(names, rq, f)
    ensures e == f
  {
    var i :| 0 <= i < |names| && names[i] == e;
    var j :| 0 <= j < |names| && names[j] == f;
    var s := rq + ".";
    assert e.key == s[..|e.key|] && f.key == s[..|f.key|];
    NotSelf(e.key);
  }

  /** The compiled tables answer with the value of the longest matching wildcard, else with NULL. */
  lemma HeadLookup(slots: seq<(string, Slot)>, names: seq<Entry>, name: string)
    requires WellFormed(names) && Answers(slots, names)
    ensures var r := Ask(Table(None, slots), Reversed(name));
      && (r.None? <==> NoneMatch(names, Reversed(name)))
      && (forall e :: IsBest(names, Reversed(name), e) ==> r == Some(e.value))
  {
    var rq := Reversed(name);
    var r := AskIn(None, slots, rq);
    assert AnswersFor(slots, names, None, rq);
    forall e | IsBest(names, rq, e) ensures r == Some(e.value) {
      if f :| IsBest(names, rq, f) && r == Some(f.value) { BestIsUnique(names, rq, e, f); }
    }
  }

  // ----- what the keys stand for -----

  ghost predicate EndsWith(s: string, t: string) { exists p: string :: s == p + t }

  lemma LastLabel(a: string, l: string)
    requires '.' !in l
    ensures var s := a + "." + l; BackCut(s) == |a| + 1 && s[..|a|] == a && s[|a| + 1..] == l
  {
    var s := a + "." + l;
    assert s[..|a|] == a && s[|a|] == '.' && s[|a| + 1..] == l;
    BackCutIs(s, |a| + 1);
  }

  /** Ending with a dot and a label is a matter of the last label and of what is before it. */
  lemma EndByLabel(name: string, y: string, l: string)
    requires '.' !in l
    ensures var m := BackCut(name);
            EndsWith(name, y + "." + l) <==> m > 0 && name[m..] == l && EndsWith(name[..m - 1], y)
  {
    var m := BackCut(name);
    if EndsWith(name, y + "." + l) {
      var p: string :| name == p + (y + "." + l);
      EndDown(name, p, y, l);
    }
    if m > 0 && name[m..] == l && EndsWith(name[..m - 1], y) {
      var p: string :| name[..m - 1] == p + y;
      EndUp(name, m, p, y, l);
    }
  }

  lemma EndDown(name: string, p: string, y: string, l: string)
    requires '.' !in l && name == p + (y + "." + l)
    ensures BackCut(name) == |p + y| + 1 && name[|p + y| + 1..] == l && name[..|p + y|] == p + y
  {
    assert name == (p + y) + "." + l;
    LastLabel(p + y, l);
  }

  lemma EndUp(name: string, m: nat, p: string, y: string, l: string)
    requires 0 < m <= |name| && name[m - 1] == '.' && name[m..] == l && name[..m - 1] == p + y
    ensures name == p + (y + "." + l)
  {
    assert name == name[..m - 1] + "." + name[m..];
    assert (p + y) + "." + l == p + (y + "." + l);
  }

  /** So is starting with a label and a dot. */
  lemma HeadByLabel(rq: string, l: string, a: string)
    requires '.' !in l
    ensures l + "." + a <= rq <==> First(rq) == l && Dot(rq) && a <= Rest(rq)
  {
    if l + "." + a <= rq {
      var rest := rq[|l| + 1..];
      assert rq == l + "." + rest;
      Headed(l, rest);
      PrefixBehind(l + ".", a, rest);
    }
    if First(rq) == l && Dot(rq) && a <= Rest(rq) {
      Joined(rq);
      PrefixBehind(l + ".", a, Rest(rq));
    }
  }

  lemma OneLabel(x: string, name: string)
    requires '.' !in x
    ensures x + "." <= Reversed(name) <==> EndsWith(name, "." + x)
  {
    var m := BackCut(name);
    ReversedParts(name);
    assert x + "." == x + "." + "" && "." + x == "" + "." + x;
    HeadByLabel(Reversed(name), x, "");
    EndByLabel(name, "", x);
    if m > 0 { assert name[..m - 1] == name[..m - 1] + ""; }
  }

  lemma MoreLabels(ry: string, y: string, l: string, name: string)
    requires '.' !in l
    requires var m := BackCut(name);
             m > 0 ==> (ry + "." <= Reversed(name[..m - 1]) <==> EndsWith(name[..m - 1], "." + y))
    ensures l + "." + ry + "." <= Reversed(name) <==> EndsWith(name, "." + (y + "." + l))
  {
    ReversedParts(name);
    assert l + "." + ry + "." == l + "." + (ry + ".") && "." + (y + "." + l) == ("." + y) + "." + l;
    HeadByLabel(Reversed(name), l, ry + ".");
    EndByLabel(name, "." + y, l);
  }

  lemma AtDot(x: string, n: nat)
    requires 0 < n <= |x| && x[n - 1] == '.'
    ensures x == x[..n - 1] + "." + x[n..]
  {
  }

  lemma LabelsBefore(x: string, n: nat, name: string)
    requires 0 < n == BackCut(x)
    requires var y, m := x[..n - 1], BackCut(name);
             m > 0 ==> (Reversed(y) + "." <= Reversed(name[..m - 1]) <==> EndsWith(name[..m - 1], "." + y))
    ensures Reversed(x) + "." <= Reversed(name) <==> EndsWith(name, "." + x)
  {
    var y, l := x[..n - 1], x[n..];
    MoreLabels(Reversed(y), y, l, name);
    ReversedTail(x, n);
    AtDot(x, n);
  }

  /** Reversed labels are a prefix exactly where the labels themselves are a suffix. */
  lemma {:induction false} SuffixMeaning(x: string, name: string)
    ensures Reversed(x) + "." <= Reversed(name) <==> EndsWith(name, "." + x)
    decreases |x|
  {
    var n, m := BackCut(x), BackCut(name);
    if n == 0 {
      assert x[0..] == x;
      OneLabel(x, name);
    } else {
      if m > 0 { SuffixMeaning(x[..n - 1], name[..m - 1]); }
      LabelsBefore(x, n, name);
    }
  }

  lemma SameParts(a: string, b: string)
    requires Reversed(a) == Reversed(b)
    ensures var n, m := BackCut(a), BackCut(b);
      (n > 0 <==> m > 0) && a[n..] == b[m..] && (n > 0 ==> Reversed(a[..n - 1]) == Reversed(b[..m - 1]))
  {
    ReversedParts(a);
    ReversedParts(b);
  }

  lemma {:induction false} ReversedInjective(a: string, b: string)
    requires Reversed(a) == Reversed(b)
    ensures a == b
    decreases |a|
  {
    SameParts(a, b);
    var n, m := BackCut(a), BackCut(b);
    if n > 0 {
      ReversedInjective(a[..n - 1], b[..m - 1]);
      AtDot(a, n);
      AtDot(b, m);
    } else {
      assert a[0..] == a && b[0..] == b;
    }
  }

  lemma {:induction false} ReversedEnd(x: string)
    requires x != ""
    ensures Reversed(x) != "" && (Reversed(x)[|Reversed(x)| - 1] == '.' <==> x[0] == '.')
    decreases |x|
  {
    var n := BackCut(x);
    if n == 0 {
      assert x[0] in x[0..];
      assert x[|x| - 1] in x[0..];
    } else if n > 1 {
      ReversedEnd(x[..n - 1]);
    }
  }

  /** The key of ".x" matches x and every name below it; the key of "*.x" only the names below it. */
  lemma WildcardMeaning(x: string, name: string)
    requires x != "" && x[0] != '.'
    ensures Matches(Reversed(x), Reversed(name)) <==> name == x || EndsWith(name, "." + x)
    ensures Reversed("." + x) == Reversed(x) + "."
    ensures Matches(Reversed(x) + ".", Reversed(name)) <==> EndsWith(name, "." + x)
  {
    ReversedEnd(x);
    SuffixMeaning(x, name);
    if Reversed(x) == Reversed(name) { ReversedInjective(x, name); }
    LeadingDot(x);
  }

  lemma DotLast(a: string, b: string)
    ensures a + "." + (b + ".") == a + "." + b + "." && a + "." + "" == a + "."
  {
  }

  lemma DotFirst(x: string, n: nat)
    requires n <= |x|
    ensures ("." + x)[n + 1..] == x[n..] && x[0..] == x
    ensures if n == 0 then ("." + x)[..n] == "" else ("." + x)[..n] == "." + x[..n - 1]
  {
  }

  lemma ReversedTail(s: string, n: nat)
    requires 0 < n == BackCut(s)
    ensures Reversed(s) == s[n..] + "." + Reversed(s[..n - 1])
  {
  }

  lemma {:induction false} LeadingDot(x: string)
    ensures Reversed("." + x) == Reversed(x) + "."
    decreases |x|
  {
    var n, s := BackCut(x), "." + x;
    DotFirst(x, n);
    BackCutIs(s, n + 1);
    ReversedTail(s, n + 1);
    if n == 0 {
      DotLast(x, "");
    } else {
      LeadingDot(x[..n - 1]);
      ReversedTail(x, n);
      DotLast(x[n..], Reversed(x[..n - 1]));
    }
  }

  /** Lines 884-901: "*.example.com" becomes "com.example." and ".example.com" becomes "com.example". */
  method Convert(key: string) returns (p: string)
    requires key != ""
    ensures p == Reversed(key[1..])
  {
    var len, i := 0, |key| - 1;
    p := "";
    ghost var whole := Reversed(key[1..]);
    ConvertStart(key);
    while i > 0
      invariant Converting(key, i, len, p, whole)
      decreases i
    {
      if key[i] == '.' {
        LabelDone(key, i, len, p, whole);
        p := p + key[i + 1..i + 1 + len] + ".";
        len := 0;
      } else {
        LongerLabel(key, i, len, p, whole);
        len := len + 1;
      }
      i := i - 1;
    }
    ConvertEnd(key, len, p, whole);
    if len > 0 {
      p := p + key[1..1 + len];
    }
  }

  /** p holds the labels behind the last len characters up to i. */
  ghost predicate Converting(key: string, i: int, len: int, p: string, whole: string) {
    0 <= i && 0 <= len && 1 <= i + 1 + len <= |key| && '.' !in key[i + 1..i + 1 + len] &&
      whole == p + Reversed(key[1..i + 1 + len])
  }

  lemma ConvertStart(key: string)
    requires key != ""
    ensures Converting(key, |key| - 1, 0, "", Reversed(key[1..]))
  {
    assert key[1..|key|] == key[1..];
  }

  lemma ConvertEnd(key: string, len: int, p: string, whole: string)
    requires Converting(key, 0, len, p, whole)
    ensures whole == p + key[1..1 + len]
  {
    BackCutIs(key[1..1 + len], 0);
  }

  lemma LongerLabel(key: string, i: nat, len: nat, p: string, whole: string)
    requires 0 < i && Converting(key, i, len, p, whole) && key[i] != '.'
    ensures Converting(key, i - 1, len + 1, p, whole)
  {
    assert key[i..i + 1 + len] == [key[i]] + key[i + 1..i + 1 + len];
  }

  lemma LabelDone(key: string, i: nat, len: nat, p: string, whole: string)
    requires 0 < i && Converting(key, i, len, p, whole) && key[i] == '.'
    ensures Converting(key, i - 1, 0, p + key[i + 1..i + 1 + len] + ".", whole)
  {
    var s := key[1..i + 1 + len];
    assert s[i..] == key[i + 1..i + 1 + len] && s[i - 1] == '.' && s[..i - 1] == key[1..i];
    BackCutIs(s, i);
    ReversedTail(s, i);
    DotBetween(p, s[i..], Reversed(key[1..i]));
  }

  lemma DotBetween(a: string, b: string, c: string)
    ensures a + (b + "." + c) == a + b + "." + c
  {
  }
}
