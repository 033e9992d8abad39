/**
 The state of the open file cache and what each of its steps keeps
 (src/core/ngx_open_file_cache.c).  A record is named by an id.  "open" is the set of
 descriptors the process has open on behalf of the cache, "holders" the requests that
 were given a descriptor and have not yet run their cleanup.
 */
module CacheState {
  import opened RbShape

  type Fd = int

  const NO_FILE: Fd := -1

  /** ngx_cached_open_file_t without vnode events; sym stands for the two symlink settings. */
  datatype File = File(key: Key, fd: Fd, err: nat, isDir: bool, uniq: nat, sym: nat,
                       uses: nat, count: nat, close: bool, created: int, accessed: int)

  datatype State = State(files: map<Id, File>, cached: map<Id, Key>, queue: seq<Id>, current: int,
                         open: set<Fd>, holders: multiset<(Id, Fd)>)

  // ----- the invariant -----

  /** The queue holds each element of ids once. */
  ghost predicate QueueOf(q: seq<Id>, ids: set<Id>) {
    && (forall i, j :: 0 <= i < j < |q| ==> q[i] != q[j])
    && (forall i :: i in q <==> i in ids)
  }

  /** A cached record is indexed by its own name. */
  ghost predicate EntryOk(s: State, i: Id) {
    i in s.cached ==> i in s.files && s.files[i].key == s.cached[i]
  }

  ghost predicate NamesDiffer(s: State, i: Id, j: Id) {
    i in s.cached && j in s.cached && i != j ==> s.cached[i] != s.cached[j]
  }

  /** Cached records: all but out are queued, and no two have the same name. */
  ghost predicate Indexed(s: State, out: set<Id>) {
    && (forall i {:trigger EntryOk(s, i)} :: EntryOk(s, i))
    && (forall i, j {:trigger NamesDiffer(s, i, j)} :: NamesDiffer(s, i, j))
    && out <= s.cached.Keys && QueueOf(s.queue, s.cached.Keys - out) && s.current == |s.cached|
  }

  /** A record's descriptor is open while it has one; only regular files have one, or holders. */
  ghost predicate RecordOk(s: State, i: Id) {
    i in s.files ==>
      var f := s.files[i];
      && (f.fd == NO_FILE || (f.fd >= 0 && f.fd in s.open))
      && f.count == s.holders[(i, f.fd)]
      && (f.count > 0 ==> f.fd != NO_FILE)
      && (f.err != 0 || f.isDir ==> f.fd == NO_FILE)
      && (if i in s.cached then f.err == 0 ==> !f.close else f.close && f.count > 0 && f.err == 0)
  }

  ghost predicate Records(s: State) {
    forall i {:trigger RecordOk(s, i)} :: RecordOk(s, i)
  }

  ghost predicate Owns(s: State, i: Id, fd: Fd) { i in s.files && s.files[i].fd == fd }

  ghost predicate Owned(s: State, fd: Fd) { exists i {:trigger Owns(s, i, fd)} :: Owns(s, i, fd) }

  ghost predicate Apart(s: State, i: Id, j: Id) {
    i in s.files && j in s.files && i != j && s.files[i].fd != NO_FILE ==> s.files[i].fd != s.files[j].fd
  }

  /** The extra descriptors are open and in no record; all other open ones are in a record. */
  ghost predicate FdOk(s: State, extra: set<Fd>, fd: Fd) {
    && (fd in s.open ==> fd >= 0 && (fd in extra || Owned(s, fd)))
    && (fd in extra ==> fd in s.open && !Owned(s, fd))
  }

  /** Each open descriptor but the extra ones is in exactly one record. */
  ghost predicate Descriptors(s: State, extra: set<Fd>) {
    && (forall i, j {:trigger Apart(s, i, j)} :: Apart(s, i, j))
    && (forall fd {:trigger FdOk(s, extra, fd)} :: FdOk(s, extra, fd))
  }

  ghost predicate HolderOk(s: State, h: (Id, Fd)) {
    h in s.holders ==> h.0 in s.files && s.files[h.0].fd == h.1
  }

  /** What a request holds is its record's descriptor. */
  ghost predicate Held(s: State) {
    forall h {:trigger HolderOk(s, h)} :: HolderOk(s, h)
  }

  ghost predicate Inv(s: State, out: set<Id>, extra: set<Fd>) {
    Indexed(s, out) && Records(s) && Descriptors(s, extra) && Held(s)
  }

  /** Between calls. */
  ghost predicate Good(s: State) { Inv(s, {}, {}) }

  // ----- what it means -----

  /** A descriptor that a request holds is open and belongs to no other record. */
  lemma HeldIsOpen(s: State, i: Id, fd: Fd)
    requires Good(s) && (i, fd) in s.holders
    ensures fd in s.open && i in s.files && s.files[i].fd == fd && s.files[i].count == s.holders[(i, fd)]
    ensures forall j, e :: (j, e) in s.holders && j != i ==> e != fd
  {
    assert HolderOk(s, (i, fd)) && RecordOk(s, i);
    forall j, e | (j, e) in s.holders && j != i ensures e != fd {
      assert HolderOk(s, (j, e)) && RecordOk(s, j) && Apart(s, i, j);
    }
  }

  /** Every record is cached or held, and every open descriptor is in a record. */
  lemma NothingLost(s: State)
    requires Good(s)
    ensures forall i :: i in s.files && i !in s.cached ==> (i, s.files[i].fd) in s.holders
    ensures forall fd :: fd in s.open <==> fd != NO_FILE && Owned(s, fd)
  {
    forall i | i in s.files && i !in s.cached ensures (i, s.files[i].fd) in s.holders { assert RecordOk(s, i); }
    forall fd ensures fd in s.open <==> fd != NO_FILE && Owned(s, fd) {
      assert FdOk(s, {}, fd);
      if fd != NO_FILE && Owned(s, fd) {
        var i :| Owns(s, i, fd);
        assert RecordOk(s, i);
      }
    }
  }

  /** The three sizes agree. */
  lemma SizesAgree(s: State)
    requires Good(s)
    ensures s.current == |s.cached| == |s.queue|
  {
    assert s.cached.Keys - {} == s.cached.Keys;
    QueueSize(s.queue, s.cached.Keys);
  }

  lemma {:induction false} QueueSize(q: seq<Id>, ids: set<Id>)
    requires QueueOf(q, ids)
    ensures |q| == |ids|
    decreases |q|
  {
    if q == [] {
      assert ids == {};
    } else {
      QueueTail(q, ids);
      QueueSize(q[..|q| - 1], ids - {q[|q| - 1]});
    }
  }

  lemma QueueTail(q: seq<Id>, ids: set<Id>)
    requires QueueOf(q, ids) && q != []
    ensures q[|q| - 1] in ids && QueueOf(q[..|q| - 1], ids - {q[|q| - 1]})
  {
    var p, x := q[..|q| - 1], q[|q| - 1];
    assert q == p + [x];
    assert x in q;
  }

  // ----- queue steps -----

  function Remove(q: seq<Id>, x: Id): seq<Id> {
    if q == [] then [] else if q[0] == x then q[1..] else [q[0]] + Remove(q[1..], x)
  }

  lemma {:induction false} RemoveIs(q: seq<Id>, ids: set<Id>, x: Id)
    requires QueueOf(q, ids) && x in ids
    ensures QueueOf(Remove(q, x), ids - {x})
    decreases |q|
  {
    var r := q[1..];
    assert q == [q[0]] + r;
    assert forall i :: i in r <==> i in q && i != q[0];
    assert QueueOf(r, ids - {q[0]});
    if q[0] != x {
      RemoveIs(r, ids - {q[0]}, x);
      var t := Remove(r, x);
      assert q[0] !in t && q[0] in q;
      assert forall i :: i in [q[0]] + t <==> i == q[0] || i in t;
    }
  }

  /** ngx_queue_remove */
  lemma Unqueued(s: State, i: Id, extra: set<Fd>)
    requires Inv(s, {}, extra) && i in s.cached
    ensures Inv(s.(queue := Remove(s.queue, i)), {i}, extra)
  {
    assert s.cached.Keys - {} == s.cached.Keys;
    RemoveIs(s.queue, s.cached.Keys, i);
    Requeued(s, s.(queue := Remove(s.queue, i)), {}, {i}, extra);
  }

  /** ngx_queue_insert_head */
  lemma Queued(s: State, i: Id, extra: set<Fd>)
    requires Inv(s, {i}, extra)
    ensures Inv(s.(queue := [i] + s.queue), {}, extra)
  {
    var q := [i] + s.queue;
    assert forall j :: j in q <==> j == i || j in s.queue;
    Requeued(s, s.(queue := q), {i}, {}, extra);
  }

  /** Only the queue differs. */
  lemma Requeued(s: State, s': State, out: set<Id>, out': set<Id>, extra: set<Fd>)
    requires Inv(s, out, extra) && s' == s.(queue := s'.queue) && out' <= s.cached.Keys &&
             QueueOf(s'.queue, s.cached.Keys - out')
    ensures Inv(s', out', extra)
  {
    forall i ensures EntryOk(s', i) && RecordOk(s', i) { assert EntryOk(s, i) && RecordOk(s, i); }
    forall i, j ensures NamesDiffer(s', i, j) { assert NamesDiffer(s, i, j); }
    forall h ensures HolderOk(s', h) { assert HolderOk(s, h); }
    SameOwners(s, s', extra);
  }

  // ----- record steps -----

  lemma SameEntries(s: State, s': State, out: set<Id>)
    requires Indexed(s, out) && s'.cached == s.cached && s'.queue == s.queue && s'.current == s.current
    requires s'.files.Keys == s.files.Keys && forall i :: i in s.files ==> s'.files[i].key == s.files[i].key
    ensures Indexed(s', out)
  {
    forall i ensures EntryOk(s', i) { assert EntryOk(s, i); }
    forall i, j ensures NamesDiffer(s', i, j) { assert NamesDiffer(s, i, j); }
  }

  lemma SameOwners(s: State, s': State, extra: set<Fd>)
    requires Descriptors(s, extra) && s'.open == s.open
    requires s'.files.Keys == s.files.Keys && forall i :: i in s.files ==> s'.files[i].fd == s.files[i].fd
    ensures Descriptors(s', extra)
  {
    forall i, j ensures Apart(s', i, j) { assert Apart(s, i, j); }
    forall fd ensures FdOk(s', extra, fd) {
      assert FdOk(s, extra, fd);
      OwnedSame(s, s', fd);
    }
  }

  lemma OwnedSame(s: State, s': State, fd: Fd)
    requires s'.files.Keys == s.files.Keys && forall i :: i in s.files ==> s'.files[i].fd == s.files[i].fd
    ensures Owned(s', fd) <==> Owned(s, fd)
  {
    if Owned(s, fd) { var i :| Owns(s, i, fd); assert Owns(s', i, fd); }
    if Owned(s', fd) { var i :| Owns(s', i, fd); assert Owns(s, i, fd); }
  }

  /** Fields that carry no descriptor, holder or name. */
  ghost predicate Alike(f: File, g: File) {
    f.key == g.key && f.fd == g.fd && f.err == g.err && f.isDir == g.isDir && f.count == g.count && f.close == g.close
  }

  function Put(s: State, i: Id, f: File): State { s.(files := s.files[i := f]) }

  lemma Touched(s: State, i: Id, f: File, out: set<Id>, extra: set<Fd>)
    requires Inv(s, out, extra) && i in s.files && Alike(f, s.files[i])
    ensures Inv(Put(s, i, f), out, extra)
  {
    var s' := Put(s, i, f);
    forall j ensures RecordOk(s', j) { assert RecordOk(s, j); }
    forall h ensures HolderOk(s', h) { assert HolderOk(s, h); }
    SameEntries(s, s', out);
    SameOwners(s, s', extra);
  }

  /** The record gets one more holder. */
  function Take(s: State, i: Id): State
    requires i in s.files
  {
    var f := s.files[i];
    s.(files := s.files[i := f.(count := f.count + 1)], holders := s.holders + multiset{(i, f.fd)})
  }

  lemma Taken(s: State, i: Id, out: set<Id>, extra: set<Fd>)
    requires Inv(s, out, extra) && i in s.files && s.files[i].fd != NO_FILE
    ensures Inv(Take(s, i), out, extra)
  {
    var s' := Take(s, i);
    forall j ensures RecordOk(s', j) { assert RecordOk(s, j); }
    forall h ensures HolderOk(s', h) { assert HolderOk(s, h); }
    SameEntries(s, s', out);
    SameOwners(s, s', extra);
  }

  /** The record loses a holder and keeps its descriptor. */
  function Give(s: State, i: Id): State
    requires i in s.files && s.files[i].count > 0
  {
    var f := s.files[i];
    s.(files := s.files[i := f.(count := f.count - 1)], holders := s.holders - multiset{(i, f.fd)})
  }

  lemma Given(s: State, i: Id, out: set<Id>, extra: set<Fd>)
    requires Inv(s, out, extra) && i in s.files && s.files[i].count > 0 && (i in s.cached || s.files[i].count > 1)
    ensures Inv(Give(s, i), out, extra)
  {
    var s' := Give(s, i);
    forall j ensures RecordOk(s', j) { assert RecordOk(s, j); }
    forall h ensures HolderOk(s', h) { assert HolderOk(s, h); }
    SameEntries(s, s', out);
    SameOwners(s, s', extra);
  }

  // ----- steps on descriptors -----

  /** A descriptor not in any record is opened, or closed. */
  lemma Opened(s: State, fd: Fd, out: set<Id>, extra: set<Fd>)
    requires Inv(s, out, extra) && fd >= 0 && fd !in s.open
    ensures Inv(s.(open := s.open + {fd}), out, extra + {fd})
  {
    var s' := s.(open := s.open + {fd});
    forall j ensures RecordOk(s', j) { assert RecordOk(s, j); }
    forall h ensures HolderOk(s', h) { assert HolderOk(s, h); }
    SameEntries(s, s', out);
    forall i, j ensures Apart(s', i, j) { assert Apart(s, i, j); }
    forall e ensures FdOk(s', extra + {fd}, e) {
      assert FdOk(s, extra, e);
      OwnedSame(s, s', e);
      OwnedIsOpen(s, e);
    }
  }

  lemma OwnedIsOpen(s: State, fd: Fd)
    requires Records(s)
    ensures fd != NO_FILE && Owned(s, fd) ==> fd in s.open
  {
    if fd != NO_FILE && Owned(s, fd) {
      var i :| Owns(s, i, fd);
      assert RecordOk(s, i);
    }
  }

  lemma Closed(s: State, fd: Fd, out: set<Id>, extra: set<Fd>)
    requires Inv(s, out, extra) && fd in extra
    ensures fd in s.open && Inv(s.(open := s.open - {fd}), out, extra - {fd})
  {
    var s' := s.(open := s.open - {fd});
    assert FdOk(s, extra, fd);
    forall j ensures RecordOk(s', j) {
      assert RecordOk(s, j);
      assert Owns(s, j, fd) ==> Owned(s, fd);
    }
    forall h ensures HolderOk(s', h) { assert HolderOk(s, h); }
    SameEntries(s, s', out);
    forall i, j ensures Apart(s', i, j) { assert Apart(s, i, j); }
    forall e ensures FdOk(s', extra - {fd}, e) {
      assert FdOk(s, extra, e);
      OwnedSame(s, s', e);
    }
  }

  /** The set of the descriptor, if there is one. */
  function Of(fd: Fd): set<Fd> { if fd == NO_FILE then {} else {fd} }

  lemma OwnFd(s: State, i: Id)
    requires RecordOk(s, i) && i in s.files
    ensures Of(s.files[i].fd) <= s.open
  {
  }

  /** An unused cached record gives up its descriptor, which is closed, and takes another. */
  lemma Refilled(s: State, i: Id, f: File, out: set<Id>, extra: set<Fd>)
    requires Inv(s, out, extra) && i in s.cached && i in s.files && s.files[i].count == 0 && f.count == 0
    requires f.key == s.files[i].key && (f.err == 0 ==> !f.close) && (f.err != 0 || f.isDir ==> f.fd == NO_FILE)
    requires Of(f.fd) <= extra
    ensures Of(s.files[i].fd) <= s.open && Inv(Put(s, i, f).(open := s.open - Of(s.files[i].fd)), out, extra - Of(f.fd))
  {
    var s' := Put(s, i, f).(open := s.open - Of(s.files[i].fd));
    assert RecordOk(s, i);
    assert Descriptors(s', extra - Of(f.fd)) by { RefilledOwners(s, i, f, s', extra); }
    assert Indexed(s', out) by { SameEntries(s, s', out); }
    assert FdOk(s, extra, f.fd);
    forall j ensures RecordOk(s', j) {
      assert RecordOk(s, j) && Apart(s, i, j);
      NoHolders(s, i, f.fd);
      assert Owns(s, i, f.fd) ==> Owned(s, f.fd);
    }
    forall h ensures HolderOk(s', h) {
      assert HolderOk(s, h);
      NoHolders(s, i, h.1);
    }
  }

  lemma NoHolders(s: State, i: Id, fd: Fd)
    requires Held(s) && i in s.files && s.files[i].count == 0 && RecordOk(s, i)
    ensures s.holders[(i, fd)] == 0
  {
    assert HolderOk(s, (i, fd));
  }

  lemma RefilledOwners(s: State, i: Id, f: File, s': State, extra: set<Fd>)
    requires Descriptors(s, extra) && i in s.files && Of(f.fd) <= extra &&
             (s.files[i].fd == NO_FILE || s.files[i].fd in s.open)
    requires s' == Put(s, i, f).(open := s.open - Of(s.files[i].fd))
    ensures Descriptors(s', extra - Of(f.fd))
  {
    var g := s.files[i];
    assert Owns(s, i, g.fd);
    assert FdOk(s, extra, f.fd) && FdOk(s, extra, NO_FILE);
    forall a, b ensures Apart(s', a, b) {
      assert Apart(s, a, b);
      assert Owns(s, b, f.fd) ==> Owned(s, f.fd);
      assert Owns(s, a, f.fd) ==> Owned(s, f.fd);
    }
    forall fd ensures FdOk(s', extra - Of(f.fd), fd) {
      assert FdOk(s, extra, fd);
      if Owned(s, fd) {
        var j :| Owns(s, j, fd);
        assert j != i ==> Owns(s', j, fd);
      }
      if Owned(s', fd) {
        var j :| Owns(s', j, fd);
        assert j != i ==> Owns(s, j, fd);
      }
      assert fd == f.fd ==> Owns(s', i, fd);
    }
  }

  // ----- steps on the index -----

  /** The index without record i, whose record may be freed. */
  lemma EntryGone(s: State, i: Id, s': State)
    requires Indexed(s, {i}) && s'.cached == s.cached - {i} && s'.queue == s.queue && s'.current == s.current - 1
    requires forall j :: j in s.files && j != i ==> j in s'.files && s'.files[j].key == s.files[j].key
    ensures Indexed(s', {})
  {
    forall j ensures EntryOk(s', j) { assert EntryOk(s, j); }
    forall j, k ensures NamesDiffer(s', j, k) { assert NamesDiffer(s, j, k); }
    assert s'.cached.Keys - {} == s.cached.Keys - {i};
    assert |s'.cached| == |s.cached| - 1 by {
      assert s'.cached.Keys == s.cached.Keys - {i};
      assert |s'.cached.Keys| == |s'.cached| && |s.cached.Keys| == |s.cached|;
    }
  }

  /** A record in use leaves the index and waits for its holders: close is set. */
  function Detach(s: State, i: Id): State
    requires i in s.files
  {
    s.(files := s.files[i := s.files[i].(close := true)], cached := s.cached - {i}, current := s.current - 1)
  }

  lemma Detached(s: State, i: Id, extra: set<Fd>)
    requires Inv(s, {i}, extra) && i in s.files && s.files[i].count > 0
    ensures Inv(Detach(s, i), {}, extra)
  {
    var s' := Detach(s, i);
    forall j ensures RecordOk(s', j) { assert RecordOk(s, j); }
    forall h ensures HolderOk(s', h) { assert HolderOk(s, h); }
    assert Indexed(s', {}) by { EntryGone(s, i, s'); }
    assert Descriptors(s', extra) by { SameOwners(s, s', extra); }
  }

  /** An unused record leaves the index; its descriptor is closed and it is freed. */
  function Drop(s: State, i: Id): State
    requires i in s.files
  {
    s.(files := s.files - {i}, cached := s.cached - {i}, current := s.current - 1, open := s.open - Of(s.files[i].fd))
  }

  lemma Dropped(s: State, i: Id, extra: set<Fd>)
    requires Inv(s, {i}, extra) && i in s.files && s.files[i].count == 0
    ensures Inv(Drop(s, i), {}, extra)
  {
    var s' := Drop(s, i);
    assert RecordOk(s, i);
    assert Indexed(s', {}) by { EntryGone(s, i, s'); }
    assert Descriptors(s', extra) by { Ownerless(s, i, s', extra); }
    forall h ensures HolderOk(s', h) {
      assert HolderOk(s, h);
      NoHolders(s, i, h.1);
    }
    forall j ensures RecordOk(s', j) { assert RecordOk(s, j) && Apart(s, i, j); }
  }

  /** Without record i and its descriptor the others own what they owned. */
  lemma Ownerless(s: State, i: Id, s': State, extra: set<Fd>)
    requires Descriptors(s, extra) && i in s.files && s'.files == s.files - {i} && s'.open == s.open - Of(s.files[i].fd)
    ensures Descriptors(s', extra)
  {
    var g := s.files[i];
    assert Owns(s, i, g.fd);
    forall a, b ensures Apart(s', a, b) { assert Apart(s, a, b); }
    forall fd ensures FdOk(s', extra, fd) {
      assert FdOk(s, extra, fd);
      if Owned(s, fd) {
        var j :| Owns(s, j, fd);
        assert j != i ==> Owns(s', j, fd);
      }
      if Owned(s', fd) {
        var j :| Owns(s', j, fd);
        assert Owns(s, j, fd);
      }
    }
  }

  /** The last holder of a detached record goes: the descriptor is closed and the record freed. */
  function Discard(s: State, i: Id): State
    requires i in s.files
  {
    var f := s.files[i];
    s.(files := s.files - {i}, open := s.open - Of(f.fd), holders := s.holders - multiset{(i, f.fd)})
  }

  lemma Discarded(s: State, i: Id, out: set<Id>, extra: set<Fd>)
    requires Inv(s, out, extra) && i in s.files && i !in s.cached && s.files[i].count == 1
    ensures Inv(Discard(s, i), out, extra)
  {
    var s' := Discard(s, i);
    assert RecordOk(s, i);
    assert Descriptors(s', extra) by { Ownerless(s, i, s', extra); }
    forall j ensures EntryOk(s', j) { assert EntryOk(s, j); }
    forall j, k ensures NamesDiffer(s', j, k) { assert NamesDiffer(s, j, k); }
    forall h ensures HolderOk(s', h) { assert HolderOk(s, h); }
    forall j ensures RecordOk(s', j) { assert RecordOk(s, j) && Apart(s, i, j); }
  }

  /** A new record enters the index. */
  function Create(s: State, i: Id, f: File): State {
    s.(files := s.files[i := f], cached := s.cached[i := f.key], current := s.current + 1)
  }

  lemma Created(s: State, i: Id, f: File, extra: set<Fd>)
    requires Inv(s, {}, extra) && i !in s.files && f.key !in s.cached.Values
    requires f.count == 0 && (f.err == 0 ==> !f.close) && (f.err != 0 || f.isDir ==> f.fd == NO_FILE) &&
             Of(f.fd) <= extra
    ensures Inv(Create(s, i, f), {i}, extra - Of(f.fd))
  {
    var s' := Create(s, i, f);
    assert Indexed(s', {i}) by { NewEntry(s, i, f); }
    assert Descriptors(s', extra - Of(f.fd)) by { NewOwner(s, i, f, s', extra); }
    assert HolderOk(s, (i, f.fd)) && FdOk(s, extra, f.fd);
    forall j ensures RecordOk(s', j) { assert RecordOk(s, j); }
    forall h ensures HolderOk(s', h) { assert HolderOk(s, h); }
  }

  lemma NewEntry(s: State, i: Id, f: File)
    requires Indexed(s, {}) && i !in s.files && f.key !in s.cached.Values
    ensures Indexed(Create(s, i, f), {i})
  {
    var s' := Create(s, i, f);
    assert EntryOk(s, i);
    assert s'.cached.Keys - {i} == s.cached.Keys == s.cached.Keys - {};
    forall j ensures EntryOk(s', j) { assert EntryOk(s, j); }
    forall j, k ensures NamesDiffer(s', j, k) { assert NamesDiffer(s, j, k); }
  }

  lemma NewOwner(s: State, i: Id, f: File, s': State, extra: set<Fd>)
    requires Descriptors(s, extra) && i !in s.files && s'.files == s.files[i := f] && s'.open == s.open &&
             Of(f.fd) <= extra
    ensures Descriptors(s', extra - Of(f.fd))
  {
    assert FdOk(s, extra, f.fd) && FdOk(s, extra, NO_FILE);
    forall a, b ensures Apart(s', a, b) {
      assert Apart(s, a, b);
      assert Owns(s, b, f.fd) ==> Owned(s, f.fd);
      assert Owns(s, a, f.fd) ==> Owned(s, f.fd);
    }
    forall fd ensures FdOk(s', extra - Of(f.fd), fd) {
      assert FdOk(s, extra, fd);
      if Owned(s, fd) {
        var j :| Owns(s, j, fd);
        assert Owns(s', j, fd);
      }
      if Owned(s', fd) {
        var j :| Owns(s', j, fd);
        assert j != i ==> Owns(s, j, fd);
      }
      assert fd == f.fd ==> Owns(s', i, fd);
    }
  }

  /** The record at the tail of the queue is taken off. */
  lemma TailOff(s: State, extra: set<Fd>)
    requires Inv(s, {}, extra) && s.queue != []
    ensures s.queue[|s.queue| - 1] in s.cached
    ensures Inv(s.(queue := s.queue[..|s.queue| - 1]), {s.queue[|s.queue| - 1]}, extra)
  {
    assert s.cached.Keys - {} == s.cached.Keys;
    QueueTail(s.queue, s.cached.Keys);
    Requeued(s, s.(queue := s.queue[..|s.queue| - 1]), {}, {s.queue[|s.queue| - 1]}, extra);
  }

  lemma EmptyGood(s: State)
    requires s == State(map[], map[], [], 0, {}, multiset{})
    ensures Good(s)
  {
  }

  /** How a record leaves the cache. */
  function Leave(s: State, i: Id): State
    requires i in s.files
  {
    if s.files[i].count > 0 then Detach(s, i) else Drop(s, i)
  }

  lemma Left(s: State, i: Id, extra: set<Fd>)
    requires Inv(s, {i}, extra)
    ensures i in s.files && Inv(Leave(s, i), {}, extra) && Of(s.files[i].fd) <= s.open
    ensures s.files[i].err != 0 || s.files[i].isDir ==> s.files[i].count == 0 && s.files[i].fd == NO_FILE
  {
    assert EntryOk(s, i) && RecordOk(s, i);
    OwnFd(s, i);
    if s.files[i].count > 0 { Detached(s, i, extra); } else { Dropped(s, i, extra); }
  }

  function Last(q: seq<Id>): Id
    requires q != []
  {
    q[|q| - 1]
  }

  /** The least recently used record leaves the cache. */
  function Pop(s: State): State {
    if s.queue == [] || Last(s.queue) !in s.files then s
    else Leave(s.(queue := s.queue[..|s.queue| - 1]), Last(s.queue))
  }

  lemma Popped(s: State, extra: set<Fd>)
    requires Inv(s, {}, extra) && s.queue != []
    ensures Last(s.queue) in s.cached && Last(s.queue) in s.files && Inv(Pop(s), {}, extra)
    ensures var f := s.files[Last(s.queue)];
      Of(f.fd) <= s.open && (f.err != 0 || f.isDir ==> f.count == 0 && f.fd == NO_FILE)
  {
    TailOff(s, extra);
    Left(s.(queue := s.queue[..|s.queue| - 1]), Last(s.queue), extra);
  }

  // ----- expiry -----

  /** The k least recently used records left the cache and nothing else changed. */
  ghost predicate Trimmed(s: State, s': State, k: nat) {
    && k <= |s.queue| && s'.queue == s.queue[..|s.queue| - k] && s'.holders == s.holders && s'.current == s.current - k
    && (forall i :: i in s'.cached ==> i in s.cached && s'.cached[i] == s.cached[i])
    && (forall i :: i in s.files && (i in s'.cached || i !in s.cached) ==> i in s'.files && s'.files[i] == s.files[i])
    && s'.files.Keys <= s.files.Keys && s'.open <= s.open
  }

  lemma TrimNone(s: State)
    ensures Trimmed(s, s, 0)
  {
    assert s.queue[..|s.queue|] == s.queue;
  }

  lemma TrimOne(s: State, s': State, k: nat, extra: set<Fd>)
    requires Trimmed(s, s', k) && Inv(s', {}, extra) && s'.queue != []
    ensures Inv(Pop(s'), {}, extra) && Trimmed(s, Pop(s'), k + 1)
    ensures Last(s'.queue) in s'.files && Last(s'.queue) == s.queue[|s.queue| - 1 - k] && Last(s'.queue) in s.files &&
            s'.files[Last(s'.queue)] == s.files[Last(s'.queue)]
  {
    Popped(s', extra);
    assert EntryOk(s', Last(s'.queue));
    var q := s.queue;
    assert q[..|q| - k][..|q| - k - 1] == q[..|q| - k - 1];
  }

  /**
   ngx_expire_old_cached_files with start value n: with 0 the oldest record goes by force;
   at most 3 - n go in all, the others only if inactive; it stops at an active one.
   */
  ghost predicate Expired(s: State, s': State, n: nat, now: int, inactive: int, extra: set<Fd>) {
    exists k: nat :: Trimmed(s, s', k) && Aged(s, k, n, now, inactive) && StopsAt(s', k, n, now, inactive) &&
      Inv(s', {}, extra)
  }

  ghost predicate Inactive(s: State, i: Id, now: int, inactive: int) {
    i in s.files && now - s.files[i].accessed > inactive
  }

  ghost predicate Aged(s: State, k: nat, n: nat, now: int, inactive: int) {
    && k <= |s.queue| && n + k <= 3
    && forall d {:trigger MayGo(s, d, n, now, inactive)} :: 0 <= d < k ==> MayGo(s, d, n, now, inactive)
  }

  /** The record d places from the tail. */
  ghost predicate MayGo(s: State, d: int, n: nat, now: int, inactive: int) {
    0 <= d < |s.queue| && (n + d == 0 || Inactive(s, s.queue[|s.queue| - 1 - d], now, inactive))
  }

  ghost predicate StopsAt(s: State, k: nat, n: nat, now: int, inactive: int) {
    s.queue == [] || n + k == 3 || (n + k > 0 && !Inactive(s, Last(s.queue), now, inactive))
  }

  /** A cache that is full has room after a forced expiry. */
  lemma ForcedExpiry(s: State, s': State, now: int, inactive: int, extra: set<Fd>)
    requires Inv(s, {}, extra) && Expired(s, s', 0, now, inactive, extra) && s.current > 0
    ensures s'.current < s.current
  {
    var k: nat :| Trimmed(s, s', k) && Aged(s, k, 0, now, inactive) && StopsAt(s', k, 0, now, inactive) &&
      Inv(s', {}, extra);
    assert s.cached.Keys - {} == s.cached.Keys;
    QueueSize(s.queue, s.cached.Keys);
    assert |s.cached.Keys| == |s.cached|;
    assert k == 0 ==> s'.queue == s.queue;
  }

  /** The loop after n - n0 rounds. */
  ghost predicate Expiring(s: State, s': State, n0: nat, n: nat, now: int, inactive: int, extra: set<Fd>) {
    n0 <= n <= 3 && Trimmed(s, s', n - n0) && Aged(s, n - n0, n0, now, inactive) && Inv(s', {}, extra)
  }

  lemma ExpireStart(s: State, n0: nat, now: int, inactive: int, extra: set<Fd>)
    requires Inv(s, {}, extra) && n0 <= 3
    ensures Expiring(s, s, n0, n0, now, inactive, extra)
  {
    TrimNone(s);
  }

  lemma ExpireStep(s: State, s': State, n0: nat, n: nat, now: int, inactive: int, extra: set<Fd>)
    requires Expiring(s, s', n0, n, now, inactive, extra) && n < 3 && s'.queue != []
    ensures Last(s'.queue) in s'.files && Inv(s', {}, extra)
    ensures n == 0 || Inactive(s', Last(s'.queue), now, inactive) ==>
            Expiring(s, Pop(s'), n0, n + 1, now, inactive, extra)
  {
    TrimOne(s, s', n - n0, extra);
    if n == 0 || Inactive(s', Last(s'.queue), now, inactive) {
      forall d | 0 <= d < n + 1 - n0 ensures MayGo(s, d, n0, now, inactive) {
        assert d < n - n0 ==> MayGo(s, d, n0, now, inactive);
      }
    }
  }

  lemma ExpireStops(s: State, s': State, n0: nat, n: nat, now: int, inactive: int, extra: set<Fd>)
    requires Expiring(s, s', n0, n, now, inactive, extra)
    requires n == 3 || s'.queue == [] || (n != 0 && !Inactive(s', Last(s'.queue), now, inactive))
    ensures Expired(s, s', n0, now, inactive, extra)
  {
    var k: nat := n - n0;
    assert Trimmed(s, s', k) && StopsAt(s', k, n0, now, inactive);
  }

  // ----- the other records -----

  /** The queue without the request's own records. */
  function Without(q: seq<Id>, own: set<Id>): seq<Id> {
    if q == [] then [] else if q[0] in own then Without(q[1..], own) else [q[0]] + Without(q[1..], own)
  }

  lemma {:induction false} WithoutRemoved(q: seq<Id>, x: Id, own: set<Id>)
    requires x in own
    ensures Without(Remove(q, x), own) == Without(q, own)
  {
    if q != [] && q[0] != x {
      WithoutRemoved(q[1..], x, own);
      assert ([q[0]] + Remove(q[1..], x))[1..] == Remove(q[1..], x);
    }
  }

  lemma {:induction false} WithoutOthers(q: seq<Id>, own: set<Id>)
    requires forall j :: j in q ==> j !in own
    ensures Without(q, own) == q
  {
    if q != [] {
      assert q[0] in q && forall j :: j in q[1..] ==> j in q;
      WithoutOthers(q[1..], own);
    }
  }

  lemma {:induction false} WithoutMembers(q: seq<Id>, own: set<Id>, j: Id)
    ensures j in Without(q, own) <==> j in q && j !in own
  {
    if q != [] {
      WithoutMembers(q[1..], own, j);
      assert q == [q[0]] + q[1..];
    }
  }

  /** The record j, if there is one, is as it was. */
  ghost predicate Same(s: State, s': State, j: Id) {
    && (j in s'.cached <==> j in s.cached) && (j in s.cached && j in s'.cached ==> s'.cached[j] == s.cached[j])
    && (j in s'.files <==> j in s.files) && (j in s.files && j in s'.files ==> s'.files[j] == s.files[j])
  }

  /** The queue without its last k elements, and those elements. */
  ghost function Front(q: seq<Id>, k: nat): seq<Id> { if k <= |q| then q[..|q| - k] else [] }

  ghost function Back(q: seq<Id>, k: nat): seq<Id> { if k <= |q| then q[|q| - k..] else [] }

  lemma AllFront(q: seq<Id>)
    ensures Front(q, 0) == q && Back(q, 0) == []
  {
  }

  /** Of the other names' records the k least recently used leave the cache; the rest stay, in order. */
  ghost predicate Spares(s: State, s': State, own: set<Id>, k: nat) {
    var q := Without(s.queue, own);
    && k <= |q| && Without(s'.queue, own) == Front(q, k)
    && (forall j {:trigger Same(s, s', j)} :: j !in own && j !in Back(q, k) ==> Same(s, s', j))
    && (forall j :: j in Back(q, k) ==> j !in s'.cached)
  }

  /**
   Lines 362-364: if the cache is full the least recently used record goes by force, and up to
   two more if they are inactive.
   */
  ghost predicate Evicts(s: State, q: seq<Id>, k: nat, full: bool, now: int, inactive: int) {
    if !full then k == 0
    else
      && k <= 3 && k <= |q| && (k == 0 ==> q == [])
      && (forall d :: |q| - k <= d < |q| - 1 ==> Inactive(s, q[d], now, inactive))
      && (k == 3 || k == |q| || !Inactive(s, q[|q| - 1 - k], now, inactive))
  }

  /** What a request does to the records of other names. */
  ghost predicate Displaces(s: State, s': State, own: set<Id>, full: bool, now: int, inactive: int) {
    exists k: nat :: Spares(s, s', own, k) && Evicts(s, Without(s.queue, own), k, full, now, inactive)
  }

  lemma SparesAll(s: State, s': State, own: set<Id>)
    requires Without(s'.queue, own) == Without(s.queue, own) && forall j :: j !in own ==> Same(s, s', j)
    ensures Spares(s, s', own, 0)
  {
    AllFront(Without(s.queue, own));
  }

  lemma SparesSame(s: State, s': State, own: set<Id>)
    requires Spares(s, s', own, 0)
    ensures Without(s'.queue, own) == Without(s.queue, own) && forall j :: j !in own ==> Same(s, s', j)
  {
    AllFront(Without(s.queue, own));
  }

  lemma SparesThrough(s: State, t: State, t': State, s': State, own: set<Id>, k: nat)
    requires Spares(s, t, own, 0) && Spares(t, t', own, k) && Spares(t', s', own, 0)
    ensures Spares(s, s', own, k)
  {
    SparesSame(s, t, own);
    SparesSame(t', s', own);
    var q := Without(s.queue, own);
    forall j | j !in own && j !in Back(q, k) ensures Same(s, s', j) {
      assert Same(s, t, j) && Same(t, t', j) && Same(t', s', j);
    }
    forall j | j in Back(q, k) ensures j !in s'.cached {
      assert j in q;
      WithoutMembers(s.queue, own, j);
      assert Same(t', s', j);
    }
  }

  lemma EvictsAlike(s: State, t: State, own: set<Id>, k: nat, full: bool, now: int, inactive: int)
    requires Spares(s, t, own, 0) && Evicts(t, Without(t.queue, own), k, full, now, inactive)
    ensures Evicts(s, Without(s.queue, own), k, full, now, inactive)
  {
    SparesSame(s, t, own);
    var q := Without(s.queue, own);
    forall d | 0 <= d < |q| ensures Inactive(t, q[d], now, inactive) == Inactive(s, q[d], now, inactive) {
      assert q[d] in q;
      WithoutMembers(s.queue, own, q[d]);
      assert Same(s, t, q[d]);
    }
  }

  /** Steps that touch only the request's own records, before and after room is made. */
  lemma DisplacesThrough(s: State, t: State, t': State, s': State, own: set<Id>, full: bool, now: int, inactive: int)
    requires Spares(s, t, own, 0) && Displaces(t, t', own, full, now, inactive) && Spares(t', s', own, 0)
    ensures Displaces(s, s', own, full, now, inactive)
  {
    var k: nat :| Spares(t, t', own, k) && Evicts(t, Without(t.queue, own), k, full, now, inactive);
    SparesThrough(s, t, t', s', own, k);
    EvictsAlike(s, t, own, k, full, now, inactive);
  }

  lemma SparesDisplaces(s: State, s': State, own: set<Id>, now: int, inactive: int)
    requires Spares(s, s', own, 0)
    ensures Displaces(s, s', own, false, now, inactive)
  {
    assert Evicts(s, Without(s.queue, own), 0, false, now, inactive);
  }

  lemma DisplacesNone(s: State, own: set<Id>, now: int, inactive: int)
    ensures Displaces(s, s, own, false, now, inactive)
  {
    SparesAll(s, s, own);
    SparesDisplaces(s, s, own, now, inactive);
  }

  /** The queue is the cache: what is cut off its end is not cached, and what is left is. */
  lemma TrimmedQueue(s: State, s': State, k: nat, j: Id, extra: set<Fd>)
    requires Inv(s, {}, extra) && Trimmed(s, s', k) && Inv(s', {}, extra)
    ensures j in s'.cached <==> j in s.cached && j !in Back(s.queue, k)
  {
    var q := s.queue;
    var n := |q| - k;
    assert j in s.cached <==> j in q;
    assert j in s'.cached <==> j in q[..n];
    CutInTwo(q, n, j);
  }

  lemma CutInTwo(q: seq<Id>, n: nat, j: Id)
    requires n <= |q| && forall a, b :: 0 <= a < b < |q| ==> q[a] != q[b]
    ensures j in q[..n] <==> j in q && j !in q[n..]
  {
    assert q == q[..n] + q[n..];
  }

  lemma TrimSpares(s: State, s': State, own: set<Id>, k: nat, extra: set<Fd>)
    requires Inv(s, {}, extra) && Trimmed(s, s', k) && Inv(s', {}, extra) && own !! s.cached.Keys
    ensures Without(s.queue, own) == s.queue && Spares(s, s', own, k)
  {
    var q := s.queue;
    WithoutOthers(q, own);
    WithoutOthers(s'.queue, own);
    forall j | j !in own && j !in Back(q, k) ensures Same(s, s', j) { TrimmedQueue(s, s', k, j, extra); }
    forall j | j in Back(q, k) ensures j !in s'.cached { TrimmedQueue(s, s', k, j, extra); }
  }

  lemma NextStays(s: State, s': State, k: nat, now: int, inactive: int, extra: set<Fd>)
    requires Trimmed(s, s', k) && StopsAt(s', k, 0, now, inactive) && Inv(s', {}, extra)
    requires k < 3 && k < |s.queue|
    ensures k > 0 && !Inactive(s, s.queue[|s.queue| - 1 - k], now, inactive)
  {
    var x := Last(s'.queue);
    assert x == s.queue[|s.queue| - 1 - k] && x in s'.queue && EntryOk(s', x);
  }

  lemma AgedAt(s: State, k: nat, d: nat, now: int, inactive: int)
    requires Aged(s, k, 0, now, inactive) && |s.queue| - k <= d < |s.queue| - 1
    ensures Inactive(s, s.queue[d], now, inactive)
  {
    assert MayGo(s, |s.queue| - 1 - d, 0, now, inactive);
  }

  lemma ExpiryEvicts(s: State, s': State, k: nat, now: int, inactive: int, extra: set<Fd>)
    requires Trimmed(s, s', k) && Aged(s, k, 0, now, inactive) && StopsAt(s', k, 0, now, inactive)
    requires Inv(s', {}, extra)
    ensures Evicts(s, s.queue, k, true, now, inactive)
  {
    var q := s.queue;
    forall d | |q| - k <= d < |q| - 1 ensures Inactive(s, q[d], now, inactive) { AgedAt(s, k, d, now, inactive); }
    if k < 3 && k < |q| { NextStays(s, s', k, now, inactive, extra); }
  }

  lemma ExpiryDisplaces(s: State, s': State, own: set<Id>, now: int, inactive: int, extra: set<Fd>)
    requires Inv(s, {}, extra) && Expired(s, s', 0, now, inactive, extra) && own !! s.cached.Keys
    ensures Displaces(s, s', own, true, now, inactive)
  {
    var k: nat :| Trimmed(s, s', k) && Aged(s, k, 0, now, inactive) && StopsAt(s', k, 0, now, inactive) &&
      Inv(s', {}, extra);
    TrimSpares(s, s', own, k, extra);
    ExpiryEvicts(s, s', k, now, inactive, extra);
  }

  /** A record of another name goes only from a full cache, and only as the oldest one or an inactive one. */
  lemma BystanderStays(s: State, s': State, own: set<Id>, full: bool, now: int, inactive: int, i: Id)
    requires Good(s) && Displaces(s, s', own, full, now, inactive) && i in s.cached && i !in own && i in s.files
    ensures i in s'.cached ==> Same(s, s', i)
    ensures i !in s'.cached ==> full
    ensures i !in s'.cached && now - s.files[i].accessed <= inactive ==>
      var q := Without(s.queue, own); q != [] && i == Last(q)
  {
    var q := Without(s.queue, own);
    var k: nat :| Spares(s, s', own, k) && Evicts(s, q, k, full, now, inactive);
    if i !in Back(q, k) {
      assert Same(s, s', i);
    } else {
      var d :| 0 <= d < k && Back(q, k)[d] == i;
      assert q[|q| - k + d] == i;
    }
  }

  // ----- serving a request -----

  /** Lines 419-421 and 426-430: the record is counted if it hands out its descriptor, and goes to the queue's head. */
  function Serve(s: State, i: Id, take: bool, now: int): State
    requires i in s.files
  {
    var t := if take then Take(s, i) else s;
    Put(t, i, t.files[i].(accessed := now)).(queue := [i] + t.queue)
  }

  lemma Served(s: State, i: Id, take: bool, now: int)
    requires Inv(s, {i}, {}) && i in s.files && (take ==> s.files[i].fd != NO_FILE)
    ensures Good(Serve(s, i, take, now))
  {
    var t := if take then Take(s, i) else s;
    if take { Taken(s, i, {i}, {}); }
    Touched(t, i, t.files[i].(accessed := now), {i}, {});
    Queued(Put(t, i, t.files[i].(accessed := now)), i, {});
  }

  /** A request for the file named key got fd, and nobody else gained or lost a descriptor. */
  ghost predicate Handed(s: State, s': State, key: Key, take: bool, fd: Fd) {
    if take then
      exists i ::
        && i in s'.cached && s'.cached[i] == key && Owns(s', i, fd) && fd in s'.open
        && s'.holders == s.holders + multiset{(i, fd)}
    else s'.holders == s.holders
  }

  lemma ServedHands(s: State, i: Id, take: bool, now: int, key: Key)
    requires Inv(s, {i}, {}) && i in s.files && (take ==> s.files[i].fd != NO_FILE) && i in s.cached &&
             s.cached[i] == key
    ensures Good(Serve(s, i, take, now)) && Handed(s, Serve(s, i, take, now), key, take, s.files[i].fd)
  {
    Served(s, i, take, now);
    var s' := Serve(s, i, take, now);
    assert RecordOk(s', i) && Owns(s', i, s.files[i].fd);
  }

  /** ngx_open_file_cleanup and ngx_close_cached_file, lines 1017-1074 */
  function CloseResult(s: State, i: Id, minUses: nat, now: int): State
    requires i in s.files
  {
    var f := s.files[i];
    if f.close then
      if f.count > 0 then s else s.(files := s.files - {i}, open := s.open - Of(f.fd))
    else
      var s1 := Put(s, i, f.(accessed := now)).(queue := [i] + Remove(s.queue, i));
      if f.uses >= minUses || f.count > 0 then s1
      else Put(s1, i, f.(accessed := now, fd := NO_FILE)).(open := s.open - Of(f.fd))
  }

  lemma Released(s: State, i: Id, minUses: nat, now: int)
    requires Good(s) && i in s.files && (i, s.files[i].fd) in s.holders
    ensures s.files[i].count > 0 && Of(s.files[i].fd) <= s.open
    ensures Good(CloseResult(Give(s, i), i, minUses, now))
  {
    assert RecordOk(s, i) && EntryOk(s, i);
    var f, s' := s.files[i], CloseResult(Give(s, i), i, minUses, now);
    if i in s.cached {
      ReleasedCached(s, i, minUses, now);
    } else if f.count > 1 {
      Given(s, i, {}, {});
    } else {
      Discarded(s, i, {}, {});
      assert s' == Discard(s, i);
    }
  }

  lemma ReleasedCached(s: State, i: Id, minUses: nat, now: int)
    requires Good(s) && i in s.files && s.files[i].count > 0 && i in s.cached && !s.files[i].close
    ensures Good(CloseResult(Give(s, i), i, minUses, now))
  {
    Given(s, i, {}, {});
    var a := Give(s, i);
    var f := a.files[i].(accessed := now);
    Touched(a, i, f, {}, {});
    var b := Put(a, i, f);
    Unqueued(b, i, {});
    var c := b.(queue := Remove(b.queue, i));
    Queued(c, i, {});
    var d := c.(queue := [i] + c.queue);
    if f.count > 0 || f.uses >= minUses {
      assert CloseResult(a, i, minUses, now) == d;
    } else {
      var g := f.(fd := NO_FILE);
      assert {} - Of(NO_FILE) == {};
      Refilled(d, i, g, {}, {});
      assert CloseResult(a, i, minUses, now) == Put(d, i, g).(open := d.open - Of(f.fd));
    }
  }

  // ----- what contradicts the invariant -----

  /** A record with a closed descriptor, or two with the same, or a descriptor in no record. */
  lemma NotGood(s: State, i: Id, j: Id, fd: Fd)
    requires fd != NO_FILE
    requires (Owns(s, i, fd) && fd !in s.open) || (Owns(s, i, fd) && Owns(s, j, fd) && i != j) ||
             (fd in s.open && !Owned(s, fd))
    ensures !Good(s)
  {
    if Good(s) {
      GoodFds(s, i, j, fd);
      assert false;
    }
  }

  lemma GoodFds(s: State, i: Id, j: Id, fd: Fd)
    requires Good(s) && fd != NO_FILE
    ensures Owns(s, i, fd) ==> fd in s.open
    ensures Owns(s, i, fd) && Owns(s, j, fd) ==> i == j
    ensures fd in s.open ==> Owned(s, fd)
  {
    assert RecordOk(s, i) && Apart(s, i, j) && FdOk(s, {}, fd);
  }

  // ----- a new record -----

  /** The record j left the index while requests hold its descriptor fd. */
  ghost predicate Stale(s: State, j: Id, fd: Fd) {
    Owns(s, j, fd) && j !in s.cached && fd != NO_FILE
  }

  /** After expiry a name that was not cached still is not, and so on. */
  lemma TrimKeeps(s: State, t: State, k: nat, key: Key, id: Id, j: Id, fd: Fd)
    requires Trimmed(s, t, k) && key !in s.cached.Values && id !in s.files
    ensures key !in t.cached.Values && id !in t.files && (Stale(s, j, fd) ==> Stale(t, j, fd))
  {
    forall i | i in t.cached ensures t.cached[i] != key { assert i in s.cached; }
  }

  lemma FdIsOpen(s: State, out: set<Id>, fd: Fd, j: Id)
    requires Inv(s, out, Of(fd)) || (Inv(s, out, {}) && Stale(s, j, fd))
    ensures Of(fd) <= s.open
  {
    if Inv(s, out, Of(fd)) { assert FdOk(s, Of(fd), fd); } else { assert RecordOk(s, j); }
  }

  /** No memory for the record: lines 478-483 close the descriptor. */
  lemma Unallocated(s: State, fd: Fd, j: Id)
    ensures Inv(s, {}, Of(fd)) ==> Good(s.(open := s.open - Of(fd)))
    ensures Inv(s, {}, {}) && Stale(s, j, fd) ==> !Good(s.(open := s.open - Of(fd)))
  {
    var s' := s.(open := s.open - Of(fd));
    if Inv(s, {}, Of(fd)) {
      if fd == NO_FILE { assert s' == s; } else { Closed(s, fd, {}, {fd}); assert {fd} - {fd} == {}; }
    }
    if Stale(s, j, fd) {
      assert Owns(s', j, fd);
      NotGood(s', j, j, fd);
    }
  }

  lemma NewServed(s: State, id: Id, f: File, take: bool, now: int)
    requires Inv(s, {}, Of(f.fd)) && id !in s.files && f.key !in s.cached.Values && f.count == 0
    requires (f.err == 0 ==> !f.close) && (f.err != 0 || f.isDir ==> f.fd == NO_FILE) && (take ==> f.fd != NO_FILE)
    ensures Good(Serve(Create(s, id, f), id, take, now)) &&
            Handed(s, Serve(Create(s, id, f), id, take, now), f.key, take, f.fd)
  {
    Created(s, id, f, Of(f.fd));
    assert Of(f.fd) - Of(f.fd) == {};
    ServedHands(Create(s, id, f), id, take, now, f.key);
  }

  lemma NewShares(s: State, id: Id, f: File, take: bool, now: int, j: Id)
    requires Stale(s, j, f.fd) && id !in s.files
    ensures !Good(Serve(Create(s, id, f), id, take, now))
  {
    var s' := Serve(Create(s, id, f), id, take, now);
    assert Owns(s', id, f.fd) && Owns(s', j, f.fd);
    NotGood(s', id, j, f.fd);
  }
}
