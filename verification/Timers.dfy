/**
 Event timers (src/event/ngx_event_timer.c and .h) on the red-black tree.  Keys are
 milliseconds in a 64-bit machine word, compared by signed difference
 (src/core/ngx_rbtree.c, lines 122-154).  The ghost fields hold the true, unwrapped
 times; "in a window" means that now and all deadlines lie within half the range of the word.
 */
module Timers {
  import opened RbShape
  import opened RbOrder
  import opened RbMemory
  import RbTree

  // ----- machine words -----

  const HALF: nat := 0x8000_0000_0000_0000

  const WORD: nat := 0x1_0000_0000_0000_0000

  function Wrap(x: int): nat { x % WORD }

  /** (ngx_msec_int_t) x */
  function Signed(x: int): int {
    var r := x % WORD;
    if r < HALF then r else r - WORD
  }

  /** The comparison of ngx_rbtree_insert_timer_value. */
  function Earlier(): Less {
    (x: Key, y: Key) => Signed(x.num - y.num) < 0
  }

  /** Signed differences of wrapped times are exact for times less than half apart. */
  lemma SignedExact(x: int, y: int)
    requires x - y < HALF && y - x < HALF
    ensures Signed(Wrap(x) - Wrap(y)) == x - y
  {
  }

  // ----- deadlines -----

  type Deadlines = map<Id, int>

  ghost predicate InWindow(lo: int, time: int, due: Deadlines) {
    lo <= time < lo + HALF && forall i :: i in due ==> lo <= due[i] < lo + HALF
  }

  /** The nodes carry the wrapped deadlines. */
  ghost predicate Carries(s: Order, due: Deadlines)
  {
    forall e :: e in s ==> e.0 in due && e.1 == Key(Wrap(due[e.0]), [])
  }

  /** The deadline in the window that a key stands for. */
  ghost predicate Stands(k: Key, d: int, lo: int) { lo <= d < lo + HALF && k == Key(Wrap(d), []) }

  lemma EarlierIs(x: Key, y: Key, a: int, b: int, lo: int)
    requires Stands(x, a, lo) && Stands(y, b, lo)
    ensures Earlier()(x, y) <==> a < b
  {
    SignedExact(a, b);
  }

  /** All keys stand for times in the window from lo on. */
  ghost predicate InOneWindow(K: set<Key>, lo: int) { forall k :: k in K ==> exists d: int :: Stands(k, d, lo) }

  /** In a window the comparison is an order, although it is none on all words. */
  lemma WindowOrder(lo: int, K: set<Key>)
    requires InOneWindow(K, lo)
    ensures WeakOrder(Earlier(), K)
  {
    var lt := Earlier();
    forall x, y | x in K && y in K && lt(x, y) ensures !lt(y, x) {
      var a: int :| Stands(x, a, lo);
      var b: int :| Stands(y, b, lo);
      EarlierIs(x, y, a, b, lo);
      EarlierIs(y, x, b, a, lo);
    }
    forall x, y, z | x in K && y in K && z in K && !lt(x, y) && !lt(y, z) ensures !lt(x, z) {
      var a: int :| Stands(x, a, lo);
      var b: int :| Stands(y, b, lo);
      var c: int :| Stands(z, c, lo);
      EarlierIs(x, y, a, b, lo);
      EarlierIs(y, z, b, c, lo);
      EarlierIs(x, z, a, c, lo);
    }
  }

  /** A set of keys that the comparison orders has a least one. */
  lemma {:induction false} LeastKey(K: set<Key>) returns (least: Key)
    requires K != {} && WeakOrder(Earlier(), K)
    ensures least in K && forall k :: k in K ==> !Earlier()(k, least)
    decreases |K|
  {
    least :| least in K;
    var rest := K - {least};
    if rest != {} {
      var y := LeastKey(rest);
      if !Earlier()(least, y) { least := y; }
    }
  }

  /** A key that is not earlier than another stands for a time less than half a turn behind it. */
  lemma HalfTurn(k: Key, first: Key)
    requires k.num < WORD && k.name == [] && first.num < WORD && !Earlier()(k, first)
    ensures exists d: int :: Stands(k, d, first.num)
  {
    var ahead := Wrap(k.num - first.num);
    assert Wrap(first.num + ahead) == k.num;
    assert Stands(k, first.num + ahead, first.num);
  }

  /** The comparison orders a set of machine words exactly if they lie in one window of half the range. */
  lemma WindowExact(K: set<Key>)
    requires forall k :: k in K ==> k.num < WORD && k.name == []
    ensures WeakOrder(Earlier(), K) <==> exists lo: int :: InOneWindow(K, lo)
  {
    if WeakOrder(Earlier(), K) {
      if K == {} {
        assert InOneWindow(K, 0);
      } else {
        var first := LeastKey(K);
        forall k | k in K ensures exists d: int :: Stands(k, d, first.num) { HalfTurn(k, first); }
        assert InOneWindow(K, first.num);
      }
    }
    if lo: int :| InOneWindow(K, lo) { WindowOrder(lo, K); }
  }

  /** Three words spread over the whole range compare in a circle. */
  lemma NoOrderBeyondWindow()
    ensures var K := {Key(0, []), Key(HALF - 1, []), Key(HALF + 1, [])};
      !WeakOrder(Earlier(), K) && forall lo: int :: !InOneWindow(K, lo)
  {
    var a, b, c := Key(0, []), Key(HALF - 1, []), Key(HALF + 1, []);
    var lt := Earlier();
    assert Signed(c.num - b.num) == 2 && Signed(b.num - a.num) == HALF - 1 && Signed(c.num - a.num) == 1 - HALF;
    assert !lt(c, b) && !lt(b, a) && lt(c, a);
    WindowExact({a, b, c});
  }

  /** Key order is deadline order. */
  lemma DueOrder(lo: int, time: int, s: Order, due: Deadlines, i: nat, j: nat)
    requires Carries(s, due) && InWindow(lo, time, due) && Sorted(Earlier(), s) && i <= j < |s|
    ensures s[i] in s && s[j] in s && due[s[i].0] <= due[s[j].0]
  {
    assert s[i] in s && s[j] in s;
    if i < j {
      assert InOrder(Earlier(), s, i, j);
      SignedExact(due[s[j].0], due[s[i].0]);
    }
  }

  lemma FirstIsEarliest(lo: int, time: int, s: Order, due: Deadlines, id: Id)
    requires Carries(s, due) && InWindow(lo, time, due) && Sorted(Earlier(), s)
    requires IdsOf(s) == due.Keys && id in due
    ensures s != [] && s[0] in s && s[0].0 in due && due[s[0].0] <= due[id]
  {
    assert id in IdsOf(s);
    var e :| e in s && e.0 == id;
    var j: nat :| j < |s| && s[j] == e;
    DueOrder(lo, time, s, due, 0, j);
  }

  /** A timer may be added wherever the window allows it. */
  lemma RoomFor(lo: int, time: int, s: Order, due: Deadlines, d: int)
    requires Carries(s, due) && InWindow(lo, time, due) && lo <= d < lo + HALF
    ensures WeakOrder(Earlier(), KeysOf(s) + {Key(Wrap(d), [])})
  {
    var K := KeysOf(s) + {Key(Wrap(d), [])};
    assert Stands(Key(Wrap(d), []), d, lo);
    forall k | k in K ensures exists d: int :: Stands(k, d, lo) {
      if k in KeysOf(s) {
        var e :| e in s && e.1 == k;
        assert Stands(k, due[e.0], lo);
      }
    }
    WindowOrder(lo, K);
  }

  ghost predicate IsEarliest(due: Deadlines, i: Id) { i in due && forall j :: j in due ==> due[i] <= due[j] }

  /** The events whose time has come. */
  function Late(due: Deadlines, time: int): set<Id> { set i | i in due && due[i] <= time }

  /** What an event handler does to timers; it may call ngx_add_timer and ngx_del_timer. */
  datatype Action = Add(ev: Id, timer: nat) | Del(ev: Id)

  /** A handler's actions on existing events, adding no timer that is due. */
  ghost predicate Allowed(acts: seq<Action>, events: set<Id>, time: int, lo: int) {
    forall a :: a in acts ==> a.ev in events && (a.Add? ==> a.timer > 0 && time + a.timer < lo + HALF)
  }

  function Touched(acts: seq<Action>): set<Id> { set a | a in acts :: a.ev }

  const LAZY_DELAY := 300

  function Abs(x: int): nat { if x >= 0 then x else -x }

  /** What one action makes of the deadlines: a timer less than LAZY_DELAY off is left as it is. */
  function Acted(due: Deadlines, a: Action, time: int): Deadlines {
    match a
    case Add(ev, timer) =>
      if ev in due && Abs(time + timer - due[ev]) < LAZY_DELAY then due else due[ev := time + timer]
    case Del(ev) => due - {ev}
  }

  function ActedAll(due: Deadlines, acts: seq<Action>, time: int): Deadlines {
    if acts == [] then due else Acted(ActedAll(due, acts[..|acts| - 1], time), acts[|acts| - 1], time)
  }

  /** The deadlines after some events fired: each loses its own, and its handler acts on the others. */
  function AfterFiring(handler: Id -> seq<Action>, first: Deadlines, fired: seq<Id>, time: int): Deadlines {
    if fired == [] then first
    else
      var node := fired[|fired| - 1];
      ActedAll(AfterFiring(handler, first, fired[..|fired| - 1], time) - {node}, handler(node), time)
  }

  /** At its turn each event was due and no other had an earlier deadline. */
  ghost predicate InTurn(handler: Id -> seq<Action>, first: Deadlines, fired: seq<Id>, time: int) {
    forall i {:trigger HasTurn(handler, first, fired, i, time)} :: HasTurn(handler, first, fired, i, time)
  }

  ghost predicate HasTurn(handler: Id -> seq<Action>, first: Deadlines, fired: seq<Id>, i: int, time: int) {
    0 <= i < |fired| ==>
      var due := AfterFiring(handler, first, fired[..i], time); IsEarliest(due, fired[i]) && due[fired[i]] <= time
  }

  lemma NextTurn(handler: Id -> seq<Action>, first: Deadlines, fired: seq<Id>, node: Id, time: int)
    requires InTurn(handler, first, fired, time)
    requires var due := AfterFiring(handler, first, fired, time); IsEarliest(due, node) && due[node] <= time
    ensures InTurn(handler, first, fired + [node], time)
    ensures AfterFiring(handler, first, fired + [node], time) ==
            ActedAll(AfterFiring(handler, first, fired, time) - {node}, handler(node), time)
  {
    var more := fired + [node];
    assert more[..|fired|] == fired;
    forall i ensures HasTurn(handler, first, more, i, time) {
      if 0 <= i < |fired| {
        assert HasTurn(handler, first, fired, i, time);
        SameTurn(handler, first, fired, node, i, time);
      }
    }
  }

  lemma SameTurn(handler: Id -> seq<Action>, first: Deadlines, fired: seq<Id>, node: Id, i: nat, time: int)
    requires i < |fired| && HasTurn(handler, first, fired, i, time)
    ensures HasTurn(handler, first, fired + [node], i, time)
  {
    var more := fired + [node];
    assert more[..i] == fired[..i] && more[i] == fired[i];
  }

  /** An event that no action names keeps its deadline; one that has a new deadline got it from an action. */
  lemma {:induction false} ActedKeeps(due: Deadlines, acts: seq<Action>, time: int, ev: Id)
    ensures ev !in Touched(acts) ==> (ev in ActedAll(due, acts, time) <==> ev in due)
    ensures ev !in Touched(acts) && ev in due ==> ActedAll(due, acts, time)[ev] == due[ev]
    ensures ev in ActedAll(due, acts, time) ==>
      (ev in due && ActedAll(due, acts, time)[ev] == due[ev]) || Adds(acts, ev, ActedAll(due, acts, time)[ev] - time)
  {
    if acts != [] {
      var most, a := acts[..|acts| - 1], acts[|acts| - 1];
      ActedKeeps(due, most, time, ev);
      assert a in acts && forall b :: b in most ==> b in acts;
    }
  }

  /** The actions set the event's timer to t from now. */
  ghost predicate Adds(acts: seq<Action>, ev: Id,
                       t: int) { exists a :: a in acts && a.Add? && a.ev == ev && a.timer == t }

  ghost predicate Untouched(handler: Id -> seq<Action>, fired: seq<Id>, ev: Id) {
    ev !in fired && forall k :: k in fired ==> ev !in Touched(handler(k))
  }

  /** What did not fire and no handler touched stays as it was. */
  lemma {:induction false} Survives(handler: Id -> seq<Action>, first: Deadlines, fired: seq<Id>, time: int, ev: Id)
    requires Untouched(handler, fired, ev)
    ensures var due := AfterFiring(handler, first, fired, time);
      (ev in due <==> ev in first) && (ev in first ==> due[ev] == first[ev])
  {
    if fired != [] {
      var most, node := fired[..|fired| - 1], fired[|fired| - 1];
      assert node in fired && forall k :: k in most ==> k in fired;
      Survives(handler, first, most, time, ev);
      ActedKeeps(AfterFiring(handler, first, most, time) - {node}, handler(node), time, ev);
    }
  }

  /** A deadline was there before, or a handler of an event that fired set it. */
  ghost predicate Explained(handler: Id -> seq<Action>, first: Deadlines, fired: seq<Id>, time: int, ev: Id, d: int) {
    (ev in first && first[ev] == d) || exists k :: k in fired && Adds(handler(k), ev, d - time)
  }

  lemma {:induction false} NothingElse(handler: Id -> seq<Action>, first: Deadlines, fired: seq<Id>, time: int, ev: Id)
    requires ev in AfterFiring(handler, first, fired, time)
    ensures Explained(handler, first, fired, time, ev, AfterFiring(handler, first, fired, time)[ev])
  {
    if fired != [] {
      var most, node := fired[..|fired| - 1], fired[|fired| - 1];
      var due := AfterFiring(handler, first, most, time);
      assert node in fired && forall k :: k in most ==> k in fired;
      ActedKeeps(due - {node}, handler(node), time, ev);
      if ev in due { NothingElse(handler, first, most, time, ev); }
    }
  }

  /** Nothing becomes due, and what was due and not touched stays so. */
  ghost predicate Spares(due: Deadlines, due': Deadlines, touched: set<Id>, time: int) {
    && (forall i :: i in Late(due', time) ==> i in due && due[i] == due'[i])
    && (forall i :: i in Late(due, time) && i !in touched ==> i in Late(due', time))
  }

  lemma SparesStep(a: Deadlines, b: Deadlines, c: Deadlines, ev: Id, touched: set<Id>, time: int)
    requires Spares(a, b, touched, time) && Spares(b, c, {ev}, time) && ev in touched
    ensures Spares(a, c, touched, time)
  {
  }

  lemma SparesChange(lo: int, due: Deadlines, ev: Id, d: int, time: int)
    requires InWindow(lo, time, due) && time < d
    ensures Spares(due, due, {ev}, time) && Spares(due, due - {ev}, {ev}, time) && Spares(due, due[ev := d], {ev}, time)
    ensures InWindow(lo, time, due - {ev}) && (d < lo + HALF ==> InWindow(lo, time, due[ev := d]))
  {
  }

  lemma SparesEither(lo: int, due: Deadlines, due': Deadlines, ev: Id, d: int, time: int)
    requires InWindow(lo, time, due) && time < d < lo + HALF && (due' == due || due' == due[ev := d])
    ensures InWindow(lo, time, due') && Spares(due, due', {ev}, time)
  {
    SparesChange(lo, due, ev, d, time);
  }

  lemma AddedIs(lo: int, due: Deadlines, due': Deadlines, ev: Id, timer: nat, time: int)
    requires InWindow(lo, time, due) && 0 < timer && time + timer < lo + HALF
    requires due' == if ev in due && Abs(time + timer - due[ev]) < LAZY_DELAY then due else due[ev := time + timer]
    ensures due' == Acted(due, Add(ev, timer), time) && InWindow(lo, time, due') && Spares(due, due', {ev}, time)
  {
    SparesEither(lo, due, due', ev, time + timer, time);
  }

  /** Between rounds: the fired events come first, in order, and the rest is still due. */
  ghost predicate Progress(handler: Id -> seq<Action>, first: Deadlines, fired: seq<Id>, due: Deadlines, time: int) {
    && (forall i :: i in Late(due, time) ==> i in first && first[i] == due[i] && i !in fired)
    && FiredInOrder(first, time, fired)
    && (forall i, ev :: 0 <= i < |fired| && ev in Late(due, time) ==> first[fired[i]] <= due[ev])
    && (forall ev :: ev in Late(first, time) ==>
         ev in Late(due, time) || ev in fired || exists k :: k in fired && ev in Touched(handler(k)))
  }

  /** Each event fired once, was due, and the fired ones come in the order of their deadlines. */
  ghost predicate FiredInOrder(first: Deadlines, time: int, fired: seq<Id>) {
    && (forall i :: 0 <= i < |fired| ==> fired[i] in Late(first, time))
    && (forall i, j :: 0 <= i < j < |fired| ==> fired[i] != fired[j] && first[fired[i]] <= first[fired[j]])
  }

  /** Every due event fired, or a handler cancelled or postponed it before its turn. */
  ghost predicate NoneMissed(handler: Id -> seq<Action>, first: Deadlines, time: int, fired: seq<Id>) {
    forall ev :: ev in Late(first, time) ==> ev in fired || exists k :: k in fired && ev in Touched(handler(k))
  }

  lemma AllFired(handler: Id -> seq<Action>, first: Deadlines, fired: seq<Id>, due: Deadlines, time: int)
    requires Progress(handler, first, fired, due, time) && Late(due, time) == {}
    ensures FiredInOrder(first, time, fired) && NoneMissed(handler, first, time, fired)
  {
  }

  lemma NothingFired(handler: Id -> seq<Action>, due: Deadlines, time: int)
    ensures Progress(handler, due, [], due, time)
  {
  }

  function Marked(flags: set<Id>, fired: seq<Id>): set<Id> {
    if fired == [] then flags else Marked(flags, fired[..|fired| - 1]) + {fired[|fired| - 1]}
  }

  lemma MarkedNext(flags: set<Id>, fired: seq<Id>, node: Id)
    ensures Marked(flags, fired + [node]) == Marked(flags, fired) + {node}
  {
    assert (fired + [node])[..|fired|] == fired;
  }

  lemma {:induction false} MarkedIs(flags: set<Id>, fired: seq<Id>, ev: Id)
    ensures ev in Marked(flags, fired) <==> ev in flags || ev in fired
  {
    if fired != [] {
      MarkedIs(flags, fired[..|fired| - 1], ev);
      assert fired == fired[..|fired| - 1] + [fired[|fired| - 1]];
    }
  }

  /** One round: the earliest event fires and its handler touches no due event but by taking it away. */
  lemma Fired(handler: Id -> seq<Action>, first: Deadlines, fired: seq<Id>, due: Deadlines, time: int, node: Id,
              due': Deadlines)
    requires Progress(handler, first, fired, due, time)
    requires node in Late(due, time) && IsEarliest(due, node)
    requires Spares(due - {node}, due', Touched(handler(node)), time)
    ensures Progress(handler, first, fired + [node], due', time) && Late(due', time) < Late(due, time)
  {
    var next := fired + [node];
    forall i | 0 <= i < |next| ensures next[i] in Late(first, time) {}
    forall i, j | 0 <= i < j < |next| ensures next[i] != next[j] && first[next[i]] <= first[next[j]] {
      if j == |fired| { assert next[i] == fired[i] && fired[i] in fired; }
    }
    forall ev | ev in Late(first, time)
      ensures ev in Late(due', time) || ev in next || exists k :: k in next && ev in Touched(handler(k))
    {
      if ev in Late(due, time) {
        if ev != node { assert ev in Late(due - {node}, time); }
        assert ev == node || ev in Late(due', time) || ev in Touched(handler(node));
        assert node in next;
      } else if ev !in fired {
        var k :| k in fired && ev in Touched(handler(k));
        assert k in next;
      }
    }
  }

  lemma Replacing(lo: int, time: int, due: Deadlines, ev: Id, d: int)
    requires InWindow(lo, time, due)
    ensures InWindow(lo, time, due - {ev}) && (due - {ev})[ev := d] == due[ev := d]
  {
  }

  lemma WrapSum(time: int, timer: nat)
    ensures Wrap(Wrap(time) + timer) == Wrap(time + timer)
  {
  }

  /** The order and the deadlines gain the same event. */
  lemma OneMore(s: Order, r: Order, e: (Id, Key), b: Order, a: Order, due: Deadlines, d: int)
    requires Without(s, r, e, b, a) && IdsOf(s) == due.Keys && Carries(s, due) && e.0 !in due && e.1 == Key(Wrap(d), [])
    ensures IdsOf(r) == due.Keys + {e.0} && Carries(r, due[e.0 := d])
  {
    Grown(s, r, e, b, a);
  }

  /** The order and the deadlines lose the same event. */
  lemma OneLess(s: Order, r: Order, e: (Id, Key), b: Order, a: Order, due: Deadlines)
    requires Without(s, r, e, b, a) && DistinctIds(r) && IdsOf(r) == due.Keys && Carries(r, due)
    ensures IdsOf(s) == due.Keys - {e.0} && Carries(s, due - {e.0})
  {
    Shrunk(s, r, e, b, a);
  }

  lemma NotDue(due: Deadlines, ev: Id)
    requires ev !in due
    ensures due - {ev} == due
  {
  }

  class Timers {
    const tree: RbTree.RbTree
    var now: nat                 // ngx_current_msec
    var timerSet: set<Id>        // the events with ev->timer_set
    var timedout: set<Id>        // the events with ev->timedout
    ghost var time: int
    ghost var due: Deadlines

    ghost predicate Valid()
      reads this, tree
    {
      && tree.Valid() && tree.lt == Earlier() && now == Wrap(time)
      && Ids(tree.tree) == timerSet == due.Keys && IdsOf(Inorder(tree.tree)) == due.Keys
      && Carries(Inorder(tree.tree), due) && Sorted(tree.lt, Inorder(tree.tree))
    }

    ghost function Events(): set<Id>
      reads this, tree
    {
      tree.nodes.Keys - {tree.sentinel}
    }

    /** ngx_event_timer_init */
    constructor (sentinel: Id, now: nat)
      requires now < WORD
      ensures Valid() && due == map[] && time == now && fresh(tree)
      ensures tree.sentinel == sentinel && tree.nodes.Keys == {sentinel}
    {
      this.now := now;
      timerSet, timedout, due, time := {}, {}, map[], now;
      tree := new RbTree.RbTree(sentinel, Earlier());
    }

    /** Time passes: ngx_current_msec moves on, and may wrap around. */
    method Tick(elapsed: nat)
      requires Valid()
      modifies this`now, this`time
      ensures Valid() && time == old(time) + elapsed && due == old(due)
    {
      WrapSum(time, elapsed);
      now := Wrap(now + elapsed);
      time := time + elapsed;
    }

    /** Memory for an event without a timer. */
    method NewEvent(ev: Id, n: Node)
      requires Valid() && ev !in tree.nodes
      modifies tree
      ensures Valid() && Events() == old(Events()) + {ev}
    {
      tree.NewNode(ev, n);
    }

    /** ngx_event_find_timer: the time to wait for the earliest deadline. */
    method FindTimer(ghost lo: int) returns (wait: nat)
      requires Valid() && InWindow(lo, time, due)
      ensures due == map[] ==> wait == WORD - 1
      ensures due != map[] ==> exists i :: IsEarliest(due, i) && wait == (if due[i] > time then due[i] - time else 0)
    {
      EmptyTree();
      if tree.root == tree.sentinel {
        return WORD - 1;
      }
      var node := Earliest(lo);
      wait := Remaining(node, lo);
    }

    /** Lines 70-72 of src/event/ngx_event_timer.c */
    method Remaining(node: Id, ghost lo: int) returns (wait: nat)
      requires Valid() && InWindow(lo, time, due) && node in due && node in tree.nodes &&
               tree.nodes[node].key.num == Wrap(due[node])
      ensures wait == if due[node] > time then due[node] - time else 0
    {
      SignedExact(due[node], time);
      var timer := Signed(tree.nodes[node].key.num - now);
      wait := if timer > 0 then timer else 0;
    }

    /** ngx_rbtree_min(root, sentinel) finds the earliest deadline. */
    method Earliest(ghost lo: int) returns (node: Id)
      requires Valid() && InWindow(lo, time, due) && tree.root != tree.sentinel
      ensures IsEarliest(due, node) && node in Events() && tree.nodes[node].key.num == Wrap(due[node])
    {
      node := tree.First();
      ghost var s := Inorder(tree.tree);
      assert s[0] in s;
      tree.NodesOnce();
      forall j | j in due ensures due[node] <= due[j] {
        FirstIsEarliest(lo, time, s, due, j);
      }
    }

    /** ngx_event_del_timer */
    method DelTimer(ev: Id)
      requires Valid() && ev in Events()
      modifies this`timerSet, this`due, tree
      ensures Valid() && due == old(due) - {ev} && Events() == old(Events())
    {
      if ev !in timerSet {
        NotDue(due, ev);
        return;
      }
      TakeOut(ev);
      timerSet := timerSet - {ev};
      due := due - {ev};
    }

    /** Line 47 of src/event/ngx_event_timer.h */
    method TakeOut(ev: Id)
      requires Valid() && ev in timerSet
      modifies tree
      ensures tree.Valid() && tree.lt == Earlier() && tree.nodes.Keys == old(tree.nodes.Keys)
      ensures Ids(tree.tree) == IdsOf(Inorder(tree.tree)) == due.Keys - {ev} && Carries(Inorder(tree.tree), due - {ev})
      ensures Sorted(tree.lt, Inorder(tree.tree))
    {
      ghost var s := Inorder(tree.tree);
      tree.NodesOnce();
      CarriedKey(ev);
      ghost var b, a := tree.Delete(ev);
      OneLess(Inorder(tree.tree), s, (ev, old(tree.nodes[ev].key)), b, a, due);
      InorderIds(tree.tree);
    }

    /** ngx_event_add_timer: a timer already set and less than LAZY_DELAY off is left as it is. */
    method AddTimer(ev: Id, timer: nat, ghost lo: int)
      requires Valid() && ev in Events() && InWindow(lo, time, due) && time + timer < lo + HALF
      modifies this`timerSet, this`due, tree
      ensures Valid() && Events() == old(Events())
      ensures due == if ev in old(due) && Abs(time + timer - old(due[ev])) < LAZY_DELAY then old(due)
              else old(due)[ev := time + timer]
    {
      var key := KeyFor(timer);
      var lazy := false;
      if ev in timerSet {
        lazy := Lazy(ev, key, time + timer);
      }
      if !lazy {
        Reset(ev, key, time + timer, lo);
      }
    }

    /** Lines 86-101 of src/event/ngx_event_timer.h */
    method Reset(ev: Id, key: nat, ghost d: int, ghost lo: int)
      requires Valid() && ev in Events() && InWindow(lo, time, due) && lo <= d < lo + HALF && key == Wrap(d)
      modifies this`timerSet, this`due, tree
      ensures Valid() && Events() == old(Events()) && due == old(due)[ev := d]
    {
      ghost var first := due;
      if ev in timerSet {
        DelTimer(ev);
        Replacing(lo, time, first, ev, d);
      }
      Set(ev, key, d, lo);
    }

    /** Line 67 of src/event/ngx_event_timer.h */
    method KeyFor(timer: nat) returns (key: nat)
      requires Valid()
      ensures key == Wrap(time + timer)
    {
      key := Wrap(now + timer);
      WrapSum(time, timer);
    }

    /** Lines 77-79 of src/event/ngx_event_timer.h */
    method Lazy(ev: Id, key: nat, ghost d: int) returns (lazy: bool)
      requires Valid() && ev in timerSet && key == Wrap(d) && d - due[ev] < HALF && due[ev] - d < HALF
      ensures lazy <==> Abs(d - due[ev]) < LAZY_DELAY
    {
      CarriedKey(ev);
      SignedExact(d, due[ev]);
      var diff := Signed(key - tree.nodes[ev].key.num);
      lazy := Abs(diff) < LAZY_DELAY;
    }

    /** Line 98 of src/event/ngx_event_timer.c */
    method DueNow(node: Id, ghost lo: int) returns (late: bool)
      requires Valid() && InWindow(lo, time, due) && node in due && node in tree.nodes &&
               tree.nodes[node].key.num == Wrap(due[node])
      ensures late <==> due[node] <= time
    {
      SignedExact(due[node], time);
      late := Signed(tree.nodes[node].key.num - now) <= 0;
    }

    /** Lines 89-101 of src/event/ngx_event_timer.h */
    method Set(ev: Id, key: nat, ghost d: int, ghost lo: int)
      requires Valid() && ev in Events() && ev !in timerSet && InWindow(lo, time, due) && lo <= d < lo + HALF &&
               key == Wrap(d)
      modifies this`timerSet, this`due, tree
      ensures Valid() && Events() == old(Events()) && due == old(due)[ev := d]
    {
      ghost var s, first := Inorder(tree.tree), due;
      RoomFor(lo, time, s, due, d);
      ghost var b, a := tree.InsertSorted(ev, Key(key, []));
      assert due == first;
      OneMore(s, Inorder(tree.tree), (ev, Key(key, [])), b, a, due, d);
      timerSet := timerSet + {ev};
      due := first[ev := d];
      InorderIds(tree.tree);
    }

    lemma CarriedKey(ev: Id)
      requires Valid() && ev in timerSet
      ensures ev in tree.nodes && tree.nodes[ev].key == Key(Wrap(due[ev]), [])
    {
      tree.NodesOnce();
      assert ev in IdsOf(Inorder(tree.tree));
      var e :| e in Inorder(tree.tree) && e.0 == ev;
    }

    /** ev->handler(ev) */
    method Handle(acts: seq<Action>, ghost lo: int)
      requires Valid() && InWindow(lo, time, due) && Allowed(acts, Events(), time, lo)
      modifies this`timerSet, this`due, tree
      ensures Valid() && InWindow(lo, time, due) && Events() == old(Events()) &&
              Spares(old(due), due, Touched(acts), time)
      ensures due == ActedAll(old(due), acts, time)
    {
      for k := 0 to |acts|
        invariant Valid() && InWindow(lo, time, due) && Events() == old(Events()) &&
                  Spares(old(due), due, Touched(acts), time)
        invariant due == ActedAll(old(due), acts[..k], time)
      {
        ghost var before := due;
        Act(acts[k], lo);
        assert acts[..k + 1][..k] == acts[..k];
        assert acts[k] in acts && acts[k].ev in Touched(acts);
        SparesStep(old(due), before, due, acts[k].ev, Touched(acts), time);
      }
      assert acts[..|acts|] == acts;
    }

    method Act(a: Action, ghost lo: int)
      requires Valid() && InWindow(lo, time, due) && a.ev in Events() &&
               (a.Add? ==> a.timer > 0 && time + a.timer < lo + HALF)
      modifies this`timerSet, this`due, tree
      ensures Valid() && InWindow(lo, time, due) && Events() == old(Events()) && Spares(old(due), due, {a.ev}, time)
      ensures due == Acted(old(due), a, time)
    {
      match a {
        case Add(ev, timer) => Start(ev, timer, lo);
        case Del(ev) => Stop(ev, lo);
      }
    }

    method Start(ev: Id, timer: nat, ghost lo: int)
      requires Valid() && InWindow(lo, time, due) && ev in Events() && timer > 0 && time + timer < lo + HALF
      modifies this`timerSet, this`due, tree
      ensures Valid() && InWindow(lo, time, due) && Events() == old(Events()) && Spares(old(due), due, {ev}, time)
      ensures due == Acted(old(due), Add(ev, timer), time)
    {
      ghost var first := due;
      AddTimer(ev, timer, lo);
      AddedIs(lo, first, due, ev, timer, time);
    }

    method Stop(ev: Id, ghost lo: int)
      requires Valid() && InWindow(lo, time, due) && ev in Events()
      modifies this`timerSet, this`due, tree
      ensures Valid() && InWindow(lo, time, due) && Events() == old(Events()) && Spares(old(due), due, {ev}, time)
      ensures due == Acted(old(due), Del(ev), time)
    {
      SparesChange(lo, due, ev, time + 1, time);
      DelTimer(ev);
    }

    /** ngx_event_expire_timers */
    method ExpireTimers(handler: Id -> seq<Action>, ghost lo: int) returns (fired: seq<Id>)
      requires Valid() && InWindow(lo, time, due) && forall ev :: ev in Events() ==>
               Allowed(handler(ev), Events(), time, lo)
      modifies this`timerSet, this`timedout, this`due, tree
      ensures Valid() && InWindow(lo, time, due) && Late(due, time) == {} && Events() == old(Events())
      ensures FiredInOrder(old(due), time, fired) && NoneMissed(handler, old(due), time, fired)
      // each fired in its turn, and the deadlines are those left by the fired events and their handlers
      ensures InTurn(handler, old(due), fired, time) && due == AfterFiring(handler, old(due), fired, time)
      ensures forall ev :: ev in old(due) && Untouched(handler, fired, ev) ==> ev in due && due[ev] == old(due)[ev]
      ensures forall ev :: ev in due ==> Explained(handler, old(due), fired, time, ev, due[ev])
      ensures timedout == Marked(old(timedout), fired)
    {
      fired := [];
      EmptyTree();
      NothingFired(handler, due, time);
      while tree.root != tree.sentinel
        invariant Valid() && InWindow(lo, time, due) && Events() == old(Events())
        invariant tree.root == tree.sentinel ==> Late(due, time) == {}
        invariant Progress(handler, old(due), fired, due, time)
        invariant InTurn(handler, old(due), fired, time) && due == AfterFiring(handler, old(due), fired, time)
        invariant timedout == Marked(old(timedout), fired)
        decreases Late(due, time)
      {
        var node := Earliest(lo);
        var late := DueNow(node, lo);
        if !late {
          assert Late(due, time) == {};
          break;
        }
        NextTurn(handler, old(due), fired, node, time);
        Expire(node, handler, old(due), fired, lo);
        MarkedNext(old(timedout), fired, node);
        fired := fired + [node];
        EmptyTree();
      }
      AllFired(handler, old(due), fired, due, time);
      forall ev | ev in old(due) && Untouched(handler, fired, ev) ensures ev in due && due[ev] == old(due)[ev] {
        Survives(handler, old(due), fired, time, ev);
      }
      forall ev | ev in due ensures Explained(handler, old(due), fired, time, ev, due[ev]) {
        NothingElse(handler, old(due), fired, time, ev);
      }
    }

    /** Lines 123-151 of src/event/ngx_event_timer.c: one event fires. */
    method Expire(node: Id, handler: Id -> seq<Action>, ghost first: Deadlines, ghost fired: seq<Id>, ghost lo: int)
      requires Valid() && InWindow(lo, time, due) && node in Events() && Allowed(handler(node), Events(), time, lo)
      requires Progress(handler, first, fired, due, time) && node in Late(due, time) && IsEarliest(due, node)
      modifies this`timerSet, this`timedout, this`due, tree
      ensures Valid() && InWindow(lo, time, due) && Events() == old(Events()) && timedout == old(timedout) + {node}
      ensures Progress(handler, first, fired + [node], due, time) && Late(due, time) < old(Late(due, time))
      ensures due == ActedAll(old(due) - {node}, handler(node), time)
    {
      ghost var before := due;
      DelTimer(node);
      timedout := timedout + {node};
      Handle(handler(node), lo);
      Fired(handler, first, fired, before, time, node, due);
    }

    lemma EmptyTree()
      requires Valid()
      ensures tree.root == tree.sentinel <==> due == map[]
    {
      tree.RootFact();
      if tree.tree.Leaf? { assert due.Keys == {}; } else { assert tree.tree.id in due.Keys; }
    }
  }

  /** A timer set shortly before the counter wraps fires when it is due, behind the wrap. */
  method AcrossTheWrap() returns (wait: nat, fired: seq<Id>)
    ensures wait == 10 && fired == [1]
  {
    var timers := OneTimer();
    wait := timers.FindTimer(WORD - 5);
    timers.Tick(10);
    fired := timers.ExpireTimers(_ => [], WORD - 5);
    OnlyFired(fired);
  }

  method OneTimer() returns (timers: Timers)
    ensures fresh(timers) && fresh(timers.tree) && timers.Valid() && timers.Events() == {1}
    ensures timers.time == WORD - 5 && timers.due == map[1 := WORD + 5]
  {
    timers := new Timers(0, WORD - 5);
    timers.NewEvent(1, Node(Key(0, []), 0, 0, 0, false));
    timers.AddTimer(1, 10, WORD - 5);
  }

  lemma OnlyFired(fired: seq<Id>)
    requires 1 in fired && (forall i :: 0 <= i < |fired| ==> fired[i] == 1)
    requires forall i, j :: 0 <= i < j < |fired| ==> fired[i] != fired[j]
    ensures fired == [1]
  {
    if |fired| > 1 {
      FirstTwoDiffer(fired);
      assert false;
    }
  }

  lemma FirstTwoDiffer(fired: seq<Id>)
    requires |fired| > 1 && forall i, j :: 0 <= i < j < |fired| ==> fired[i] != fired[j]
    ensures fired[0] != fired[1]
  {
  }
}
