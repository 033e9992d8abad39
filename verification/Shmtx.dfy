/**
 The shared-memory mutex of src/core/ngx_shmtx.c (atomic operations variant) as a
 state machine: any number of processes, each at a program counter, interleave the
 atomic actions of trylock, lock, unlock and force_unlock.  A plain read and a
 compare-and-set are separate actions, so every race of the source is present.
 */
module Shmtx {

  /** Process ids; 0 is the value of a free lock word and belongs to no process. */
  type Pid = nat

  /** Where a process is inside the mutex code; the comment names the source line it is about to run. */
  datatype Pc =
    | Idle
    | TryRead | TryCas                 // 65: the two halves of trylock
    | LockRead | LockCas               // 78 and 90: fast path and spinning
    | Announce                         // 101: wait++
    | RecheckRead | RecheckCas         // 103
    | Asleep                           // 110: inside sem_wait
    | Holding
    | UnlockCas                        // 142
    | ForceCas(victim: Pid)            // 154
    | WakeRead                         // 175
    | WakeCas(seen: nat)               // 181
    | WakePost                         // 189: wait already decremented, sem_post to come
    | Dead

  /** `semaphore` is mtx->semaphore; `lock` is 0 or the holder's pid. */
  datatype State = State(semaphore: bool, lock: nat, wait: nat, sem: nat, pc: map<Pid, Pc>)

  /** What an atomic action does: the process's next program counter and the new shared words. */
  datatype Effect = Effect(c: Pc, lock: nat, wait: nat, sem: nat)

  function Apply(s: State, p: Pid, e: Effect): State {
    State(s.semaphore, e.lock, e.wait, e.sem, s.pc[p := e.c])
  }

  /** The effect of only moving to c. */
  function Goto(s: State, c: Pc): Effect { Effect(c, s.lock, s.wait, s.sem) }

  /** ngx_atomic_cmp_set(mtx->lock, 0, p) succeeding. */
  function Take(s: State, p: Pid): Effect { Effect(Holding, p, s.wait, s.sem) }

  /** The lock word cleared and ngx_shmtx_wakeup entered. */
  function Release(s: State): Effect {
    Effect(if s.semaphore then WakeRead else Idle, 0, s.wait, s.sem)
  }

  /** Failed acquisition: spin again, or (with a semaphore) register as a waiter. */
  predicate AfterFailure(s: State, e: Effect) {
    e == Goto(s, LockRead) || (s.semaphore && e == Goto(s, Announce))
  }

  /** One atomic action of process p may have effect e. */
  predicate Act(s: State, p: Pid, e: Effect) {
    p in s.pc &&
    match s.pc[p]
    case Idle =>
      || e == Goto(s, TryRead) || e == Goto(s, LockRead) || e == Goto(s, UnlockCas)
      || (e.c.ForceCas? && e == Goto(s, e.c) && e.c.victim in s.pc && s.pc[e.c.victim].Dead?)
    case TryRead => e == Goto(s, if s.lock == 0 then TryCas else Idle)
    case TryCas => e == if s.lock == 0 then Take(s, p) else Goto(s, Idle)
    case LockRead => if s.lock == 0 then e == Goto(s, LockCas) else AfterFailure(s, e)
    case LockCas => if s.lock == 0 then e == Take(s, p) else AfterFailure(s, e)
    case Announce => e == Goto(s, RecheckRead).(wait := s.wait + 1)
    case RecheckRead => e == Goto(s, if s.lock == 0 then RecheckCas else Asleep)
    case RecheckCas => e == if s.lock == 0 then Take(s, p) else Goto(s, Asleep)
    case Asleep =>
      // a token is taken, or sem_wait fails with an error other than EINTR
      (s.sem > 0 && e == Goto(s, LockRead).(sem := s.sem - 1)) || e == Goto(s, LockRead)
    case Holding => e == Goto(s, UnlockCas)
    case UnlockCas => e == if s.lock == p then Release(s) else Goto(s, Idle)
    case ForceCas(v) => e == if s.lock == v then Release(s) else Goto(s, Idle)
    case WakeRead => e == Goto(s, if s.wait == 0 then Idle else WakeCas(s.wait))
    case WakeCas(seen) =>
      e == if s.wait == seen && seen > 0 then Goto(s, WakePost).(wait := seen - 1) else Goto(s, WakeRead)
    case WakePost => e == Goto(s, Idle).(sem := s.sem + 1)
    case Dead => false
  }

  /** Where the death of a process cannot cost a sleeper its wakeup; see DeathStrandsExactly. */
  predicate DeathIsHarmless(c: Pc) {
    !Attempting(c) && !Waking(c)
  }

  predicate Moves(s: State, p: Pid, e: Effect) {
    Act(s, p, e) || (p in s.pc && DeathIsHarmless(s.pc[p]) && e == Goto(s, Dead))
  }

  ghost predicate Next(s: State, s': State) {
    exists p, e :: Moves(s, p, e) && s' == Apply(s, p, e)
  }

  ghost predicate Init(s: State) {
    0 !in s.pc && s.lock == 0 && s.wait == 0 && s.sem == 0 && forall p :: p in s.pc ==> s.pc[p] == Idle
  }

  ghost predicate Run(r: seq<State>) {
    forall i :: 0 < i < |r| ==> Next(r[i-1], r[i])
  }

  ghost predicate Reachable(s: State) {
    exists r :: Run(r) && |r| > 0 && Init(r[0]) && r[|r|-1] == s
  }

  // ----- what every action keeps -----

  /** Registered waiters that have not been served: they count against the tickets. */
  function Waiters(s: State): set<Pid> {
    set p | p in s.pc && Registered(s.pc[p])
  }

  /** Wakeups whose ticket left `wait` but has not reached the semaphore yet. */
  function Posts(s: State): set<Pid> {
    set p | p in s.pc && s.pc[p].WakePost?
  }

  /** Processes inside ngx_shmtx_wakeup. */
  predicate Waking(c: Pc) { c.WakeRead? || c.WakeCas? || c.WakePost? }

  /** Processes about to look at the lock word before registering as waiters. */
  predicate Attempting(c: Pc) { c.LockRead? || c.LockCas? }

  /** Processes inside ngx_shmtx_lock that are not asleep. */
  predicate Contending(c: Pc) { c.LockRead? || c.LockCas? || c.Announce? || c.RecheckRead? || c.RecheckCas? }

  predicate MayOwn(c: Pc) { c.Holding? || c.UnlockCas? || c.Dead? }

  predicate Registered(c: Pc) { c.RecheckRead? || c.RecheckCas? || c.Asleep? }

  ghost predicate OwnerOk(s: State) {
    && 0 !in s.pc
    && (s.lock != 0 ==> s.lock in s.pc && MayOwn(s.pc[s.lock]))
    && (forall p :: p in s.pc && s.pc[p].Holding? ==> s.lock == p)
    && (forall p :: p in s.pc && s.pc[p].ForceCas? ==>
          s.pc[p].victim in s.pc && s.pc[s.pc[p].victim].Dead?)
  }

  /** wait + in-flight posts + semaphore value cover every registered waiter. */
  ghost predicate TicketsCover(s: State) {
    s.wait + |Posts(s)| + s.sem >= |Waiters(s)|
  }

  ghost predicate SomeAsleep(s: State) { exists p :: p in s.pc && s.pc[p].Asleep? }
  ghost predicate SomeAttempting(s: State) { exists p :: p in s.pc && Attempting(s.pc[p]) }
  ghost predicate SomeWaking(s: State) { exists p :: p in s.pc && Waking(s.pc[p]) }

  /** The forbidden state: the lock is free, somebody sleeps, and nothing will ever wake them. */
  ghost predicate Stuck(s: State) {
    s.lock == 0 && SomeAsleep(s) && s.sem == 0 && !SomeAttempting(s) && !SomeWaking(s)
  }

  ghost predicate NoSemaphoreNoWaiting(s: State) {
    !s.semaphore ==> forall p :: p in s.pc ==> !s.pc[p].Announce? && !Registered(s.pc[p])
  }

  ghost predicate Inv(s: State) {
    OwnerOk(s) && TicketsCover(s) && !Stuck(s) && NoSemaphoreNoWaiting(s)
  }

  lemma SetSizeAfter<T>(a: set<T>, b: set<T>, x: T)
    requires a - {x} == b - {x}
    ensures |b| == |a| - One(x in a) + One(x in b)
  {
    assert x in a ==> |a - {x}| == |a| - 1;
    assert x in b ==> |b - {x}| == |b| - 1;
    assert x !in a ==> a - {x} == a;
    assert x !in b ==> b - {x} == b;
  }

  lemma CountsAfter(s: State, p: Pid, e: Effect)
    requires p in s.pc
    ensures |Waiters(Apply(s, p, e))| == |Waiters(s)| - One(Registered(s.pc[p])) + One(Registered(e.c))
    ensures |Posts(Apply(s, p, e))| == |Posts(s)| - One(s.pc[p].WakePost?) + One(e.c.WakePost?)
  {
    SetSizeAfter(Waiters(s), Waiters(Apply(s, p, e)), p);
    SetSizeAfter(Posts(s), Posts(Apply(s, p, e)), p);
  }

  lemma OwnerPreserved(s: State, p: Pid, e: Effect)
    requires OwnerOk(s) && Moves(s, p, e)
    ensures OwnerOk(Apply(s, p, e))
  {
    OwnerPreservedByDeath(s, p, e);
  }

  function One(b: bool): nat { if b then 1 else 0 }

  /** Locally, an action never spends a ticket without serving or unregistering a waiter. */
  lemma TicketBalance(s: State, p: Pid, e: Effect)
    requires Moves(s, p, e)
    ensures e.wait + One(e.c.WakePost?) + e.sem + One(Registered(s.pc[p]))
         >= s.wait + One(s.pc[p].WakePost?) + s.sem + One(Registered(e.c))
  {
    var c := s.pc[p];
    if c.Asleep? || c.WakePost? || c.WakeCas? || c.Announce? {
    } else {
      assert e.wait == s.wait && e.sem == s.sem && !c.WakePost? && !e.c.WakePost?;
      assert Registered(e.c) ==> Registered(c);
    }
  }

  lemma TicketsPreserved(s: State, p: Pid, e: Effect)
    requires TicketsCover(s) && Moves(s, p, e)
    ensures TicketsCover(Apply(s, p, e))
  {
    TicketBalance(s, p, e);
    CountsAfter(s, p, e);
  }

  lemma NoSemaphorePreserved(s: State, p: Pid, e: Effect)
    requires NoSemaphoreNoWaiting(s) && Moves(s, p, e)
    ensures NoSemaphoreNoWaiting(Apply(s, p, e))
  {
  }

  /** Only a waker that finds wait == 0 can be the last hope of a sleeper. */
  lemma StuckOnlyAfterLastWaker(s: State, p: Pid, e: Effect)
    requires Moves(s, p, e) && Stuck(Apply(s, p, e)) && !Stuck(s) && OwnerOk(s) && NoSemaphoreNoWaiting(s)
    ensures s.pc[p].WakeRead? && s.wait == 0 && s.sem == 0
    ensures exists q :: q in s.pc && q != p && s.pc[q].Asleep?
  {
    var s' := Apply(s, p, e);
    var q :| q in s'.pc && s'.pc[q].Asleep?;
    assert !Attempting(e.c) && !Waking(e.c) by { assert p in s'.pc && s'.pc[p] == e.c; }
    assert s.lock == 0 && q != p && s.pc[q].Asleep?;
    assert forall x :: x in s.pc && x != p ==> s'.pc[x] == s.pc[x];
  }

  lemma NotStuckPreserved(s: State, p: Pid, e: Effect)
    requires Inv(s) && Moves(s, p, e)
    ensures !Stuck(Apply(s, p, e))
  {
    var s' := Apply(s, p, e);
    if s.pc[p].WakeRead? && s.wait == 0 && s.sem == 0 && exists q :: q in s.pc && q != p && s.pc[q].Asleep? {
      // wait and the semaphore are 0, so the ticket of a sleeper is in flight
      var q :| q in s.pc && q != p && s.pc[q].Asleep?;
      assert q in Waiters(s);
      var x :| x in Posts(s);
      assert s'.pc[x].WakePost?;
    } else if Stuck(s') {
      StuckOnlyAfterLastWaker(s, p, e);
    }
  }

  lemma InvPreserved(s: State, s': State)
    requires Inv(s) && Next(s, s')
    ensures Inv(s')
  {
    var p, e :| Moves(s, p, e) && s' == Apply(s, p, e);
    OwnerPreserved(s, p, e);
    TicketsPreserved(s, p, e);
    NotStuckPreserved(s, p, e);
    NoSemaphorePreserved(s, p, e);
  }

  lemma {:induction false} InvAlongRun(r: seq<State>, i: nat)
    requires Run(r) && i < |r| && Init(r[0])
    ensures Inv(r[i])
    decreases i
  {
    if i == 0 {
      assert Waiters(r[0]) == {};
    } else {
      InvAlongRun(r, i - 1);
      InvPreserved(r[i-1], r[i]);
    }
  }

  lemma ReachableInv(s: State)
    requires Reachable(s)
    ensures Inv(s)
  {
    var r :| Run(r) && |r| > 0 && Init(r[0]) && r[|r|-1] == s;
    InvAlongRun(r, |r| - 1);
  }

  /**
   Safety over every run: at most one process holds the lock, the tickets cover the
   waiters, and no state has the lock free with every contender asleep, an empty
   semaphore and no wakeup under way.
   */
  lemma Safety(s: State)
    requires Reachable(s)
    ensures forall p, q :: p in s.pc && q in s.pc && s.pc[p] == Holding && s.pc[q] == Holding ==> p == q
    ensures TicketsCover(s)
    ensures !Stuck(s)
  {
    ReachableInv(s);
  }

  // ----- deaths anywhere -----

  /** An action, or the death of a process wherever it is. */
  predicate Strikes(s: State, p: Pid, e: Effect) { Act(s, p, e) || (p in s.pc && e == Goto(s, Dead)) }

  ghost predicate NextOrDeath(s: State, s': State) {
    exists p, e :: Strikes(s, p, e) && s' == Apply(s, p, e)
  }

  /** What an action does to the lock word and to the claims of the process that acts. */
  ghost predicate Honest(s: State, p: Pid, e: Effect) {
    && p in s.pc && (s.pc[p].Dead? ==> e.c.Dead?) && (e.c.Holding? ==> e.lock == p)
    && (e.lock == s.lock || (e.lock == p && e.c.Holding? && s.lock == 0) || e.lock == 0)
    && (s.lock == p && e.lock == p ==> MayOwn(e.c))
    && (s.lock != 0 && e.lock == 0 ==> s.lock == p || (s.lock in s.pc && s.pc[s.lock].Dead?))
    && (e.c.ForceCas? ==> e.c.victim in s.pc && s.pc[e.c.victim].Dead?)
  }

  lemma ActionsAreHonest(s: State, p: Pid, e: Effect)
    requires Strikes(s, p, e) && p in s.pc && p != 0 && (s.lock == p ==> MayOwn(s.pc[p]))
    requires s.pc[p].ForceCas? ==> s.pc[p].victim in s.pc && s.pc[s.pc[p].victim].Dead?
    ensures Honest(s, p, e)
  {
  }

  lemma OwnerPreservedByDeath(s: State, p: Pid, e: Effect)
    requires OwnerOk(s) && Strikes(s, p, e)
    ensures OwnerOk(Apply(s, p, e))
  {
    ActionsAreHonest(s, p, e);
    HonestKeepsOwner(s, p, e);
  }

  lemma HonestKeepsOwner(s: State, p: Pid, e: Effect)
    requires OwnerOk(s) && Honest(s, p, e)
    ensures OwnerOk(Apply(s, p, e))
  {
  }

  /** With deaths allowed anywhere a wakeup can be lost, but still at most one process holds the lock. */
  lemma {:induction false} MutualExclusion(r: seq<State>, i: nat)
    requires (forall k :: 0 < k < |r| ==> NextOrDeath(r[k-1], r[k])) && i < |r| && Init(r[0])
    ensures OwnerOk(r[i])
    ensures forall p, q :: p in r[i].pc && q in r[i].pc && r[i].pc[p] == Holding && r[i].pc[q] == Holding ==> p == q
    decreases i
  {
    if i > 0 {
      MutualExclusion(r, i - 1);
      OwnerStep(r[i-1], r[i]);
    }
  }

  lemma OwnerStep(s: State, s': State)
    requires OwnerOk(s) && NextOrDeath(s, s')
    ensures OwnerOk(s')
  {
    var p, e :| Strikes(s, p, e) && s' == Apply(s, p, e);
    OwnerPreservedByDeath(s, p, e);
  }

  // ----- progress -----

  /** An action in which sem_wait returns only with a token, and nobody dies. */
  predicate Proper(s: State, p: Pid, e: Effect) {
    Act(s, p, e) && (s.pc[p].Asleep? ==> e.sem < s.sem)
  }

  ghost predicate ProperStep(s: State, s': State) {
    exists p, e :: Proper(s, p, e) && s' == Apply(s, p, e)
  }

  ghost predicate ProperRun(r: seq<State>) {
    forall i :: 0 < i < |r| ==> ProperStep(r[i-1], r[i])
  }

  ghost predicate Leads(s: State, t: State) {
    exists r :: ProperRun(r) && |r| > 0 && r[0] == s && r[|r|-1] == t
  }

  lemma LeadsNowhere(s: State)
    ensures Leads(s, s)
  {
    assert ProperRun([s]);
  }

  lemma LeadsStep(s: State, p: Pid, e: Effect) returns (t: State)
    requires Inv(s) && Proper(s, p, e)
    ensures t == Apply(s, p, e) && Leads(s, t) && Inv(t)
  {
    t := Apply(s, p, e);
    assert ProperStep(s, t);
    assert ProperRun([s, t]);
    assert Moves(s, p, e);
    InvPreserved(s, t);
  }

  lemma LeadsTrans(s: State, t: State, u: State)
    requires Leads(s, t) && Leads(t, u)
    ensures Leads(s, u)
  {
    var a :| ProperRun(a) && |a| > 0 && a[0] == s && a[|a|-1] == t;
    var b :| ProperRun(b) && |b| > 0 && b[0] == t && b[|b|-1] == u;
    var r := a + b[1..];
    assert forall i :: 0 < i < |r| ==> ProperStep(r[i-1], r[i]) by {
      forall i | 0 < i < |r| ensures ProperStep(r[i-1], r[i]) {
        if i < |a| {
          assert r[i-1] == a[i-1] && r[i] == a[i];
        } else {
          assert r[i-1] == b[i-|a|] && r[i] == b[i-|a|+1];
        }
      }
    }
    assert r[|r|-1] == u;
  }

  /** Inside ngx_shmtx_lock. */
  predicate WantsLock(c: Pc) { Contending(c) || c.Asleep? }

  predicate Wants(s: State, q: Pid) { q in s.pc && WantsLock(s.pc[q]) }

  lemma ContenderTakesFreeLock(s: State, q: Pid) returns (t: State)
    requires Inv(s) && s.lock == 0 && q in s.pc && Contending(s.pc[q])
    ensures Leads(s, t) && q in t.pc && t.pc[q].Holding?
    decreases if s.pc[q].Announce? then 3 else if s.pc[q].LockRead? || s.pc[q].RecheckRead? then 2 else 1
  {
    var e := match s.pc[q]
      case LockRead => Goto(s, LockCas)
      case Announce => Goto(s, RecheckRead).(wait := s.wait + 1)
      case RecheckRead => Goto(s, RecheckCas)
      case _ => Take(s, q);
    t := LeadsStep(s, q, e);
    if !t.pc[q].Holding? {
      var u := ContenderTakesFreeLock(t, q);
      LeadsTrans(s, t, u);
      t := u;
    }
  }

  /** A process inside the wakeup routine either delivers a token or finds none to deliver. */
  lemma WakerFinishes(s: State, w: Pid) returns (t: State)
    requires Inv(s) && w in s.pc && Waking(s.pc[w])
    ensures Leads(s, t) && Inv(t) && t.lock == s.lock && t.pc == s.pc[w := Idle] && t.sem >= s.sem
    decreases match s.pc[w]
              case WakePost => 0
              case WakeCas(seen) => if seen == s.wait then 1 else 3
              case _ => 2
  {
    if s.pc[w] == WakeCas(0) && s.wait == 0 {
      t := WakerLeaves(s, w);
    } else {
      t := WakerStep(s, w);
      if !t.pc[w].Idle? {
        var a := t;
        t := WakerFinishes(a, w);
        LeadsTrans(s, a, t);
        assert s.pc[w := a.pc[w]][w := Idle] == s.pc[w := Idle];
      }
    }
  }

  /** One step of a process in the wakeup routine. */
  lemma WakerStep(s: State, w: Pid) returns (t: State)
    requires Inv(s) && w in s.pc && Waking(s.pc[w]) && !(s.pc[w] == WakeCas(0) && s.wait == 0)
    ensures Leads(s, t) && Inv(t) && t.lock == s.lock && w in t.pc && t.pc == s.pc[w := t.pc[w]] && t.sem >= s.sem
    ensures match s.pc[w]
            case WakePost => t.pc[w].Idle?
            case WakeCas(seen) => if seen == s.wait then t.pc[w].WakePost? else t.pc[w].WakeRead?
            case _ => t.pc[w].Idle? || (t.pc[w].WakeCas? && t.pc[w].seen == t.wait)
  {
    var e := match s.pc[w]
      case WakePost => Goto(s, Idle).(sem := s.sem + 1)
      case WakeCas(seen) =>
        if s.wait == seen then Goto(s, WakePost).(wait := seen - 1) else Goto(s, WakeRead)
      case _ => Goto(s, if s.wait == 0 then Idle else WakeCas(s.wait));
    t := LeadsStep(s, w, e);
  }

  lemma WakerLeaves(s: State, w: Pid) returns (t: State)
    requires Inv(s) && w in s.pc && s.pc[w] == WakeCas(0) && s.wait == 0
    ensures Leads(s, t) && Inv(t) && t.lock == s.lock && t.pc == s.pc[w := Idle] && t.sem >= s.sem
  {
    var a := LeadsStep(s, w, Goto(s, WakeRead));
    t := LeadsStep(a, w, Goto(a, Idle));
    LeadsTrans(s, a, t);
    assert a.pc[w := Idle] == s.pc[w := Idle];
  }

  function Wakers(s: State): set<Pid> { set p | p in s.pc && Waking(s.pc[p]) }

  lemma FreeLockIsTaken(s: State, q: Pid) returns (t: State, h: Pid)
    requires Inv(s) && s.lock == 0 && Wants(s, q)
    ensures Leads(s, t) && Wants(s, h) && h in t.pc && t.pc[h].Holding?
    decreases |Wakers(s)|
  {
    if p :| p in s.pc && Contending(s.pc[p]) {
      h := p;
      t := ContenderTakesFreeLock(s, p);
    } else if s.sem > 0 {
      h := q;
      var a := LeadsStep(s, q, Goto(s, LockRead).(sem := s.sem - 1));
      t := ContenderTakesFreeLock(a, q);
      LeadsTrans(s, a, t);
    } else {
      assert SomeAsleep(s);
      var w :| w in s.pc && Waking(s.pc[w]);
      var a := WakerFinishes(s, w);
      assert Wakers(a) == Wakers(s) - {w};
      t, h := FreeLockIsTaken(a, q);
      LeadsTrans(s, a, t);
    }
  }

  lemma HolderReleases(s: State) returns (t: State)
    requires Inv(s) && s.lock != 0 && !s.pc[s.lock].Dead?
    ensures Leads(s, t) && Inv(t) && t.lock == 0
    ensures forall p :: Wants(t, p) <==> Wants(s, p)
  {
    var h := s.lock;
    var a := s;
    LeadsNowhere(s);
    if s.pc[h].Holding? {
      a := LeadsStep(s, h, Goto(s, UnlockCas));
    }
    t := LeadsStep(a, h, Release(a));
    LeadsTrans(s, a, t);
  }

  /** Neither inside ngx_shmtx_lock nor dead: what may call ngx_shmtx_force_unlock sooner or later. */
  predicate Outside(c: Pc) { !WantsLock(c) && !c.Dead? }

  /** The lock belongs to a dead process and everybody else is dead or waits for it. */
  ghost predicate Deserted(s: State) {
    s.lock in s.pc && s.pc[s.lock].Dead? && forall p :: p in s.pc ==> !Outside(s.pc[p])
  }

  /** A process outside ngx_shmtx_lock comes back from what it is doing, unless it frees the lock on the way. */
  lemma ComesBack(s: State, p: Pid) returns (t: State)
    requires Inv(s) && s.lock != 0 && s.pc[s.lock].Dead? && p in s.pc && Outside(s.pc[p])
    ensures Leads(s, t) && Inv(t) && (forall q :: Wants(t, q) <==> Wants(s, q))
    ensures t.lock == 0 || (t.lock == s.lock && t.pc == s.pc[p := Idle])
  {
    if s.pc[p].Idle? {
      t := s;
      LeadsNowhere(s);
      assert s.pc == s.pc[p := Idle];
    } else if Waking(s.pc[p]) {
      t := WakerFinishes(s, p);
    } else {
      var e := if s.pc[p].ForceCas? && s.pc[p].victim == s.lock then Release(s) else Goto(s, Idle);
      t := LeadsStep(s, p, e);
    }
  }

  /** A dead owner's lock is freed by ngx_shmtx_force_unlock. */
  lemma ForceReleases(s: State, p: Pid) returns (t: State)
    requires Inv(s) && s.lock != 0 && s.pc[s.lock].Dead? && p in s.pc && Outside(s.pc[p])
    ensures Leads(s, t) && Inv(t) && t.lock == 0
    ensures forall q :: Wants(t, q) <==> Wants(s, q)
  {
    t := ComesBack(s, p);
    if t.lock != 0 {
      var a := t;
      var b := LeadsStep(a, p, Goto(a, ForceCas(a.lock)));
      t := LeadsStep(b, p, Release(b));
      LeadsTrans(a, b, t);
      LeadsTrans(s, a, t);
    }
  }

  /**
   Progress: whenever some process is inside ngx_shmtx_lock, a finite sequence of actions (no death, no
   failing sem_wait) lets one of those processes acquire it, exactly unless the owner is dead and nobody
   is left to force its lock.
   */
  lemma Progress(s: State, q: Pid)
    requires Reachable(s) && Wants(s, q)
    ensures (exists t, h :: Leads(s, t) && Wants(s, h) && h in t.pc && t.pc[h].Holding?) <==> !Deserted(s)
  {
    ReachableInv(s);
    if Deserted(s) {
      forall t, h | Leads(s, t) && h in t.pc ensures !t.pc[h].Holding? { DesertedForever(s, t); }
    } else {
      var a := s;
      LeadsNowhere(s);
      if s.lock != 0 {
        if s.pc[s.lock].Dead? {
          var p :| p in s.pc && Outside(s.pc[p]);
          a := ForceReleases(s, p);
        } else {
          a := HolderReleases(s);
        }
      }
      var t, h := FreeLockIsTaken(a, q);
      LeadsTrans(s, a, t);
    }
  }

  lemma DesertedStep(s: State, p: Pid, e: Effect)
    requires Deserted(s) && Proper(s, p, e) && 0 !in s.pc
    ensures Deserted(Apply(s, p, e))
  {
  }

  lemma {:induction false} DesertedAlong(r: seq<State>, i: nat)
    requires ProperRun(r) && i < |r| && Deserted(r[0]) && 0 !in r[0].pc
    ensures Deserted(r[i]) && 0 !in r[i].pc
    decreases i
  {
    if i > 0 {
      DesertedAlong(r, i - 1);
      assert ProperStep(r[i-1], r[i]);
      var p, e :| Proper(r[i-1], p, e) && r[i] == Apply(r[i-1], p, e);
      DesertedStep(r[i-1], p, e);
    }
  }

  lemma DesertedForever(s: State, t: State)
    requires Deserted(s) && Leads(s, t) && 0 !in s.pc
    ensures forall h :: h in t.pc ==> !t.pc[h].Holding?
  {
    var r :| ProperRun(r) && |r| > 0 && r[0] == s && r[|r|-1] == t;
    DesertedAlong(r, |r| - 1);
    assert forall h :: h in t.pc && t.pc[h].Holding? ==> Outside(t.pc[h]);
  }

  // ----- what each operation does on its own -----

  /** Inside trylock, unlock, force_unlock or the wakeup. */
  predicate InCall(c: Pc) { c.TryRead? || c.TryCas? || c.UnlockCas? || c.ForceCas? || Waking(c) }

  predicate Returned(c: Pc) { c.Idle? || c.Holding? }

  /** ngx_shmtx_wakeup: one ticket, if there is any, becomes a token. */
  function Woken(s: State, p: Pid): State {
    if s.wait == 0 then s.(pc := s.pc[p := Idle]) else s.(wait := s.wait - 1, sem := s.sem + 1, pc := s.pc[p := Idle])
  }

  function Freed(s: State, p: Pid): State {
    if s.semaphore then Woken(s.(lock := 0), p) else s.(lock := 0, pc := s.pc[p := Idle])
  }

  /** What the rest of the call does if nobody interferes. */
  function Outcome(s: State, p: Pid): State
    requires p in s.pc && InCall(s.pc[p])
  {
    match s.pc[p]
    case UnlockCas => if s.lock == p then Freed(s, p) else s.(pc := s.pc[p := Idle])
    case ForceCas(v) => if s.lock == v then Freed(s, p) else s.(pc := s.pc[p := Idle])
    case WakePost => s.(sem := s.sem + 1, pc := s.pc[p := Idle])
    case WakeRead => Woken(s, p)
    case WakeCas(_) => Woken(s, p)
    case _ => if s.lock == 0 then s.(lock := p, pc := s.pc[p := Holding]) else s.(pc := s.pc[p := Idle])
  }

  /** Only process p acts. */
  ghost predicate Alone(r: seq<State>, p: Pid) {
    forall i {:trigger AloneAt(r, p, i)} :: AloneAt(r, p, i)
  }

  ghost predicate AloneAt(r: seq<State>, p: Pid, i: int) {
    0 < i < |r| ==> ActsOnce(r[i-1], p, r[i])
  }

  ghost predicate ActsOnce(s: State, p: Pid, t: State) { exists e :: Act(s, p, e) && t == Apply(s, p, e) }

  lemma CallStep(s: State, p: Pid, e: Effect)
    requires Act(s, p, e) && InCall(s.pc[p])
    ensures var t := Apply(s, p, e);
      if Returned(e.c) then t == Outcome(s, p) else InCall(e.c) && Outcome(t, p) == Outcome(s, p)
  {
    var t := Apply(s, p, e);
    assert t.pc[p := Idle] == s.pc[p := Idle] && t.pc[p := Holding] == s.pc[p := Holding];
  }

  /**
   A call that runs alone and returns has done its whole work: trylock takes a free lock and no other,
   unlock and force_unlock free the lock of the caller or of the victim and pass one ticket on.
   */
  lemma {:induction false} CallAlone(r: seq<State>, p: Pid)
    requires |r| > 0 && Alone(r, p) && p in r[0].pc && InCall(r[0].pc[p])
    requires p in r[|r|-1].pc && Returned(r[|r|-1].pc[p])
    requires forall i :: 0 <= i < |r| - 1 ==> p in r[i].pc && !Returned(r[i].pc[p])
    ensures r[|r|-1] == Outcome(r[0], p)
    decreases |r|
  {
    assert AloneAt(r, p, 1);
    var e :| Act(r[0], p, e) && r[1] == Apply(r[0], p, e);
    CallStep(r[0], p, e);
    if !Returned(e.c) {
      var rest := r[1..];
      forall i ensures AloneAt(rest, p, i) {
        assert AloneAt(r, p, i + 1);
        if 0 < i < |rest| { assert rest[i-1] == r[i] && rest[i] == r[i+1]; }
      }
      CallAlone(rest, p);
    }
  }

  /** The call does return. */
  lemma CallReturns(s: State, p: Pid) returns (t: State)
    requires Inv(s) && p in s.pc && InCall(s.pc[p])
    ensures Leads(s, t) && Inv(t) && t == Outcome(s, p)
    decreases CallLength(s, p)
  {
    var e := NextEffect(s, p);
    CallStep(s, p, e);
    t := LeadsStep(s, p, e);
    if !Returned(e.c) {
      var a := t;
      t := CallReturns(a, p);
      LeadsTrans(s, a, t);
    }
  }

  function CallLength(s: State, p: Pid): nat
    requires p in s.pc
  {
    match s.pc[p]
    case WakePost => 0
    case WakeCas(seen) => if seen == s.wait && seen > 0 then 1 else 3
    case WakeRead => 2
    case TryCas => 0
    case _ => 4
  }

  function NextEffect(s: State, p: Pid): (e: Effect)
    requires p in s.pc && InCall(s.pc[p])
    ensures Act(s, p, e)
  {
    match s.pc[p]
    case TryRead => Goto(s, if s.lock == 0 then TryCas else Idle)
    case TryCas => if s.lock == 0 then Take(s, p) else Goto(s, Idle)
    case UnlockCas => if s.lock == p then Release(s) else Goto(s, Idle)
    case ForceCas(v) => if s.lock == v then Release(s) else Goto(s, Idle)
    case WakeRead => Goto(s, if s.wait == 0 then Idle else WakeCas(s.wait))
    case WakeCas(seen) => if s.wait == seen && seen > 0 then Goto(s, WakePost).(wait := seen - 1) else Goto(s, WakeRead)
    case WakePost => Goto(s, Idle).(sem := s.sem + 1)
  }

  /** In every reachable state an idle process that calls trylock alone ends up with a free lock. */
  lemma TryLockTakes(s: State, p: Pid)
    requires Reachable(s) && p in s.pc && s.pc[p].Idle? && s.lock == 0
    ensures exists t :: Leads(s, t) && t == s.(lock := p, pc := s.pc[p := Holding])
  {
    ReachableInv(s);
    var a := LeadsStep(s, p, Goto(s, TryRead));
    var t := CallReturns(a, p);
    LeadsTrans(s, a, t);
    assert a.pc[p := Holding] == s.pc[p := Holding];
  }

  /** Whatever the others do: trylock fails only if it saw the lock taken, and succeeds only if it was free. */
  lemma TryLockHonest(s: State, s': State, p: Pid)
    requires NextOrDeath(s, s') && p in s.pc && p in s'.pc && (s.pc[p].TryRead? || s.pc[p].TryCas?)
    ensures s'.pc[p].Idle? ==> s.lock != 0
    ensures s'.pc[p].Holding? ==> s.lock == 0 && s'.lock == p && s.pc[p].TryCas?
    ensures s'.pc[p] == s.pc[p] || s'.pc[p].TryCas? || s'.pc[p].Idle? || s'.pc[p].Holding? || s'.pc[p].Dead?
  {
  }

  // ----- what the protocol does not promise -----

  lemma ReachStep(s: State, p: Pid, e: Effect, t: State)
    requires Reachable(s) && Moves(s, p, e) && t == Apply(s, p, e)
    ensures Reachable(t)
  {
    var r :| Run(r) && |r| > 0 && Init(r[0]) && r[|r|-1] == s;
    var r' := r + [t];
    assert Next(s, t);
    assert forall i :: 0 < i < |r'| ==> Next(r'[i-1], r'[i]);
    assert Run(r') && Init(r'[0]) && r'[|r'|-1] == t;
  }

  /** Three processes 1, 2 and 3. */
  function Trio(lock: nat, wait: nat, sem: nat, a: Pc, b: Pc, c: Pc): State {
    State(true, lock, wait, sem, map[1 := a, 2 := b, 3 := c])
  }

  lemma Trio1(s: State, a: Pc, b: Pc, c: Pc, e: Effect)
    requires Reachable(s) && s == Trio(s.lock, s.wait, s.sem, a, b, c) && Moves(s, 1, e)
    ensures Reachable(Trio(e.lock, e.wait, e.sem, e.c, b, c))
  {
    assert s.pc[1 := e.c] == map[1 := e.c, 2 := b, 3 := c];
    ReachStep(s, 1, e, Trio(e.lock, e.wait, e.sem, e.c, b, c));
  }

  lemma Trio2(s: State, a: Pc, b: Pc, c: Pc, e: Effect)
    requires Reachable(s) && s == Trio(s.lock, s.wait, s.sem, a, b, c) && Moves(s, 2, e)
    ensures Reachable(Trio(e.lock, e.wait, e.sem, a, e.c, c))
  {
    assert s.pc[2 := e.c] == map[1 := a, 2 := e.c, 3 := c];
    ReachStep(s, 2, e, Trio(e.lock, e.wait, e.sem, a, e.c, c));
  }

  lemma Trio3(s: State, a: Pc, b: Pc, c: Pc, e: Effect)
    requires Reachable(s) && s == Trio(s.lock, s.wait, s.sem, a, b, c) && Moves(s, 3, e)
    ensures Reachable(Trio(e.lock, e.wait, e.sem, a, b, e.c))
  {
    assert s.pc[3 := e.c] == map[1 := a, 2 := b, 3 := e.c];
    ReachStep(s, 3, e, Trio(e.lock, e.wait, e.sem, a, b, e.c));
  }

  lemma TrioInit()
    ensures Reachable(Trio(0, 0, 0, Idle, Idle, Idle))
  {
    var s := Trio(0, 0, 0, Idle, Idle, Idle);
    assert Run([s]) && Init([s][0]);
  }

  lemma TrioTake1(b: Pc, c: Pc, w: nat, t: nat)
    requires Reachable(Trio(0, w, t, Idle, b, c))
    ensures Reachable(Trio(1, w, t, Holding, b, c))
  {
    Trio1(Trio(0, w, t, Idle, b, c), Idle, b, c, Effect(LockRead, 0, w, t));
    Trio1(Trio(0, w, t, LockRead, b, c), LockRead, b, c, Effect(LockCas, 0, w, t));
    Trio1(Trio(0, w, t, LockCas, b, c), LockCas, b, c, Effect(Holding, 1, w, t));
  }

  lemma TrioRelease1(b: Pc, c: Pc, w: nat, t: nat)
    requires Reachable(Trio(1, w, t, Holding, b, c))
    ensures Reachable(Trio(0, w, t, WakeRead, b, c))
  {
    Trio1(Trio(1, w, t, Holding, b, c), Holding, b, c, Effect(UnlockCas, 1, w, t));
    Trio1(Trio(1, w, t, UnlockCas, b, c), UnlockCas, b, c, Effect(WakeRead, 0, w, t));
  }

  lemma TrioAnnounce2(a: Pc, c: Pc, l: nat, w: nat, t: nat)
    requires Reachable(Trio(l, w, t, a, Idle, c)) && l != 0
    ensures Reachable(Trio(l, w, t, a, Announce, c))
  {
    Trio2(Trio(l, w, t, a, Idle, c), a, Idle, c, Effect(LockRead, l, w, t));
    Trio2(Trio(l, w, t, a, LockRead, c), a, LockRead, c, Effect(Announce, l, w, t));
  }

  /** 1 has just released the lock, 2 and 3 sleep on it. */
  lemma TwoSleepers()
    ensures Reachable(Trio(0, 2, 0, WakeRead, Asleep, Asleep))
  {
    TrioInit();
    TrioTake1(Idle, Idle, 0, 0);
    TrioAnnounce2(Holding, Idle, 1, 0, 0);
    Trio2(Trio(1, 0, 0, Holding, Announce, Idle), Holding, Announce, Idle, Effect(RecheckRead, 1, 1, 0));
    Trio2(Trio(1, 1, 0, Holding, RecheckRead, Idle), Holding, RecheckRead, Idle, Effect(Asleep, 1, 1, 0));
    Trio3(Trio(1, 1, 0, Holding, Asleep, Idle), Holding, Asleep, Idle, Effect(LockRead, 1, 1, 0));
    Trio3(Trio(1, 1, 0, Holding, Asleep, LockRead), Holding, Asleep, LockRead, Effect(Announce, 1, 1, 0));
    Trio3(Trio(1, 1, 0, Holding, Asleep, Announce), Holding, Asleep, Announce, Effect(RecheckRead, 1, 2, 0));
    Trio3(Trio(1, 2, 0, Holding, Asleep, RecheckRead), Holding, Asleep, RecheckRead, Effect(Asleep, 1, 2, 0));
    TrioRelease1(Asleep, Asleep, 2, 0);
  }

  predicate SameKind(c: Pc, d: Pc) { c == d || (c.WakeCas? && d.WakeCas?) }

  /** Some run brings a process to c where its death leaves a stuck state behind. */
  ghost predicate DeathStrands(c: Pc) {
    exists s, p :: Reachable(s) && p in s.pc && SameKind(s.pc[p], c) && Stuck(Apply(s, p, Goto(s, Dead)))
  }

  lemma Strands(s: State, p: Pid, q: Pid, c: Pc)
    requires Reachable(s) && p in s.pc && q in s.pc && p != q && SameKind(s.pc[p], c)
    requires s.lock == 0 && s.sem == 0 && s.pc[q].Asleep?
    requires forall x :: x in s.pc && x != p ==> !Attempting(s.pc[x]) && !Waking(s.pc[x])
    ensures DeathStrands(c)
  {
    var t := Apply(s, p, Goto(s, Dead));
    assert t.pc[q].Asleep?;
    assert Stuck(t);
  }

  lemma WakerDeathStrands(c: Pc)
    requires Waking(c)
    ensures DeathStrands(c)
  {
    TwoSleepers();
    if c.WakeRead? {
      Strands(Trio(0, 2, 0, WakeRead, Asleep, Asleep), 1, 2, c);
    } else {
      Trio1(Trio(0, 2, 0, WakeRead, Asleep, Asleep), WakeRead, Asleep, Asleep, Effect(WakeCas(2), 0, 2, 0));
      if c.WakeCas? {
        Strands(Trio(0, 2, 0, WakeCas(2), Asleep, Asleep), 1, 2, c);
      } else {
        Trio1(Trio(0, 2, 0, WakeCas(2), Asleep, Asleep), WakeCas(2), Asleep, Asleep, Effect(WakePost, 0, 1, 0));
        Strands(Trio(0, 1, 0, WakePost, Asleep, Asleep), 1, 2, c);
      }
    }
  }

  lemma AttemptDeathStrands(c: Pc)
    requires Attempting(c)
    ensures DeathStrands(c)
  {
    TwoSleepers();
    Trio1(Trio(0, 2, 0, WakeRead, Asleep, Asleep), WakeRead, Asleep, Asleep, Effect(WakeCas(2), 0, 2, 0));
    Trio1(Trio(0, 2, 0, WakeCas(2), Asleep, Asleep), WakeCas(2), Asleep, Asleep, Effect(WakePost, 0, 1, 0));
    Trio1(Trio(0, 1, 0, WakePost, Asleep, Asleep), WakePost, Asleep, Asleep, Effect(Idle, 0, 1, 1));
    Trio2(Trio(0, 1, 1, Idle, Asleep, Asleep), Idle, Asleep, Asleep, Effect(LockRead, 0, 1, 0));
    if c.LockRead? {
      Strands(Trio(0, 1, 0, Idle, LockRead, Asleep), 2, 3, c);
    } else {
      Trio2(Trio(0, 1, 0, Idle, LockRead, Asleep), Idle, LockRead, Asleep, Effect(LockCas, 0, 1, 0));
      Strands(Trio(0, 1, 0, Idle, LockCas, Asleep), 2, 3, c);
    }
  }

  /**
   The exact limit of crash tolerance: a death can strand the sleepers if and only if it
   hits a process between a wakeup and its next look at the lock, or inside the wakeup.
   */
  lemma DeathStrandsExactly(c: Pc)
    ensures DeathStrands(c) <==> !DeathIsHarmless(c)
  {
    if Waking(c) {
      WakerDeathStrands(c);
    } else if Attempting(c) {
      AttemptDeathStrands(c);
    } else if DeathStrands(c) {
      var s, p :| Reachable(s) && p in s.pc && SameKind(s.pc[p], c) && Stuck(Apply(s, p, Goto(s, Dead)));
      ReachableInv(s);
      assert Moves(s, p, Goto(s, Dead));
      InvPreserved(s, Apply(s, p, Goto(s, Dead)));
    }
  }

  /** 2 registers after 1 released, takes the lock on the recheck and keeps its ticket. */
  lemma TicketKept(k: nat)
    requires Reachable(Trio(0, 0, k, Idle, Idle, Idle))
    ensures Reachable(Trio(2, 1, k, Idle, Holding, Idle))
  {
    TrioTake1(Idle, Idle, 0, k);
    TrioAnnounce2(Holding, Idle, 1, 0, k);
    TrioRelease1(Announce, Idle, 0, k);
    Trio1(Trio(0, 0, k, WakeRead, Announce, Idle), WakeRead, Announce, Idle, Effect(Idle, 0, 0, k));
    Trio2(Trio(0, 0, k, Idle, Announce, Idle), Idle, Announce, Idle, Effect(RecheckRead, 0, 1, k));
    Trio2(Trio(0, 1, k, Idle, RecheckRead, Idle), Idle, RecheckRead, Idle, Effect(RecheckCas, 0, 1, k));
    Trio2(Trio(0, 1, k, Idle, RecheckCas, Idle), Idle, RecheckCas, Idle, Effect(Holding, 2, 1, k));
  }

  /**
   TicketsCover is not an equation: returning at line 103 without taking back the ticket
   lets unused semaphore tokens pile up without bound while nobody waits.
   */
  lemma {:induction false} TokensPileUp(k: nat)
    ensures Reachable(Trio(0, 0, k, Idle, Idle, Idle))
  {
    if k == 0 {
      TrioInit();
    } else {
      var t := k - 1;
      TokensPileUp(t);
      TicketKept(t);
      TicketPosted(t);
    }
  }

  /** 2 releases the lock and posts its own ticket, for which nobody waits. */
  lemma TicketPosted(t: nat)
    requires Reachable(Trio(2, 1, t, Idle, Holding, Idle))
    ensures Reachable(Trio(0, 0, t + 1, Idle, Idle, Idle))
  {
    Trio2(Trio(2, 1, t, Idle, Holding, Idle), Idle, Holding, Idle, Effect(UnlockCas, 2, 1, t));
    Trio2(Trio(2, 1, t, Idle, UnlockCas, Idle), Idle, UnlockCas, Idle, Effect(WakeRead, 0, 1, t));
    WokenAlone(t);
  }

  lemma WokenAlone(t: nat)
    requires Reachable(Trio(0, 1, t, Idle, WakeRead, Idle))
    ensures Reachable(Trio(0, 0, t + 1, Idle, Idle, Idle))
  {
    Trio2(Trio(0, 1, t, Idle, WakeRead, Idle), Idle, WakeRead, Idle, Effect(WakeCas(1), 0, 1, t));
    Trio2(Trio(0, 1, t, Idle, WakeCas(1), Idle), Idle, WakeCas(1), Idle, Effect(WakePost, 0, 0, t));
    Trio2(Trio(0, 0, t, Idle, WakePost, Idle), Idle, WakePost, Idle, Effect(Idle, 0, 0, t + 1));
  }
}
