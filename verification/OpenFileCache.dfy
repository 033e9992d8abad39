/**
 The open file cache of src/core/ngx_open_file_cache.c: lookup, revalidation, reference
 counts, the queue of least recently used records, and deferred close.  The file system
 is an input: what stat, open and fstat answer during a call.  Vnode events are off.
 */
module OpenFileCache {
  import opened RbShape
  import opened CacheState
  import FileIndex

  const COUNT_LIMIT := 0x100_0000    // count is a 24-bit field
  const USES_LIMIT := 0x1_0000_0000  // uses is a uint32_t

  // ----- the file system -----

  datatype Info = Fail(err: nat) | Info(uniq: nat, isDir: bool)
  datatype Opening = NoFile(err: nat) | Opened(fd: Fd)

  /** The answers to ngx_file_info, ngx_open_file and ngx_fd_info during one call. */
  datatype Env = Env(stat: Info, open: Opening, fstat: Info)

  ghost predicate EnvOk(env: Env, open: set<Fd>) {
    && (env.stat.Fail? ==> env.stat.err > 0)
    && (if env.open.Opened? then env.open.fd >= 0 && env.open.fd !in open else env.open.err > 0)
  }

  /** The part of ngx_open_file_info_t that ngx_open_and_stat_file reads. */
  datatype Query = Query(fd: Fd, uniq: nat, testDir: bool)

  /** What it leaves there, and whether it returned NGX_OK. */
  datatype Outcome = Outcome(ok: bool, err: nat, fd: Fd, uniq: nat, isDir: bool)

  function Failure(err: nat, uniq: nat): Outcome { Outcome(false, err, NO_FILE, uniq, false) }

  /** The file is opened and looked at. */
  function OpenAnswer(q: Query, env: Env): Outcome {
    if env.open.NoFile? then Failure(env.open.err, q.uniq)
    else if env.fstat.Fail? then Failure(0, q.uniq)
    else Outcome(true, 0, if env.fstat.isDir then NO_FILE else env.open.fd, env.fstat.uniq, env.fstat.isDir)
  }

  /** Whether the answer comes from stat alone. */
  predicate StatOnly(q: Query, env: Env) {
    if q.fd != NO_FILE then env.stat.Fail? || env.stat.uniq == q.uniq
    else q.testDir && (env.stat.Fail? || env.stat.isDir)
  }

  function Answer(q: Query, env: Env): Outcome {
    if !StatOnly(q, env) then OpenAnswer(q, env)
    else if env.stat.Fail? then Failure(env.stat.err, q.uniq)
    else Outcome(true, 0, q.fd, env.stat.uniq, env.stat.isDir)
  }

  /** The descriptor that stays open because of the call. */
  function NewFd(q: Query, env: Env): Fd { if StatOnly(q, env) then NO_FILE else OpenAnswer(q, env).fd }

  // ----- requests -----

  /** The caller's side of ngx_open_file_info_t. */
  datatype Request = Request(uniq: nat, valid: int, minUses: nat, errors: bool, testDir: bool, sym: nat)

  /** ngx_open_file_info_t may be answered with a cached error only if the caller asked for errors. */
  predicate Refused(o: Outcome, req: Request) { !o.ok && (o.err == 0 || !req.errors) }

  /** Line 217: the descriptor was closed because the file was used too little. */
  predicate Shut(f: File) { f.fd == NO_FILE && f.err == 0 && !f.isDir }

  /** Lines 230-238: the record is still valid. */
  predicate Fresh(f: File, req: Request, now: int) {
    (req.uniq == 0 || req.uniq == f.uniq) && now - f.created < req.valid && req.sym == f.sym
  }

  /** The question for a name that has no open file. */
  function NewQuery(req: Request): Query { Query(NO_FILE, req.uniq, req.testDir) }

  /** Lines 275-287 */
  function QueryFor(f: File, req: Request): Query {
    if Shut(f) then NewQuery(req) else Query(f.fd, f.uniq, req.testDir || f.isDir)
  }

  /** What a valid record answers. */
  function Recorded(f: File, req: Request): Outcome {
    if f.err == 0 then Outcome(true, 0, f.fd, f.uniq, f.isDir) else Failure(f.err, req.uniq)
  }

  /** Lines 399-424, without the count. */
  function Updated(f: File, o: Outcome, sym: nat, now: int): File {
    var g := f.(fd := o.fd, err := o.err, sym := sym, created := now);
    if o.err == 0 then g.(uniq := o.uniq, close := false, isDir := o.isDir) else g
  }

  /**
   The file system contradicts itself: the file that is open under this inode number is
   said to be a directory, or stat and fstat disagree whether it is the same file.
   */
  predicate Confused(f: File, req: Request, now: int, env: Env) {
    && !Shut(f) && !Fresh(f, req, now) && f.fd != NO_FILE && env.stat.Info?
    && (if env.stat.uniq == f.uniq then env.stat.isDir else env.open.Opened? && env.fstat == Info(f.uniq, false))
  }

  /** What ngx_open_and_stat_file leaves when it did not keep the caller's descriptor. */
  predicate Proper(o: Outcome) {
    && (o.err != 0 || o.isDir ==> o.fd == NO_FILE)
    && (o.ok <==> o.err == 0)
    && (o.ok && !o.isDir ==> o.fd != NO_FILE)
  }

  function NewFile(key: Key, junk: File): File { junk.(key := key, uses := 1, count := 0) }

  /** The record after one more use. */
  function UsedOnce(f: File): File { f.(uses := (f.uses + 1) % USES_LIMIT) }

  class OpenFileCache {
    const index: FileIndex.FileIndex
    const max: nat
    const inactive: int
    var files: map<Id, File>
    var queue: seq<Id>
    var current: int
    ghost var open: set<Fd>
    ghost var holders: multiset<(Id, Fd)>

    ghost function View(): State
      reads this, index
    {
      State(files, index.entries, queue, current, open, holders)
    }

    ghost predicate Valid()
      reads this, index, index.tree
    {
      index.Valid() && Good(View()) && (max >= 1 ==> current <= max)
    }

    /** ngx_open_file_cache_init */
    constructor (max: nat, inactive: int, sentinel: Id)
      ensures Valid() && View() == State(map[], map[], [], 0, {}, multiset{}) && fresh(index) && fresh(index.tree)
      ensures this.max == max && this.inactive == inactive && index.tree.sentinel == sentinel
    {
      this.max, this.inactive := max, inactive;
      files, queue, current := map[], [], 0;
      open, holders := {}, multiset{};
      index := new FileIndex.FileIndex(sentinel);
      new;
      EmptyGood(View());
    }

    // ----- single steps -----

    /** ngx_close_file: only an open descriptor may be closed. */
    ghost method CloseFd(fd: Fd)
      requires fd in open
      modifies this`open
      ensures open == old(open) - {fd}
    {
      open := open - {fd};
    }

    /** ngx_rbtree_delete; cache->current-- */
    method Unindex(i: Id)
      requires index.Valid() && i in index.entries
      modifies this`current, index, index.tree
      ensures index.Valid() && View() == old(View()).(cached := old(View()).cached - {i}, current := old(current) - 1)
    {
      index.Delete(i);
      current := current - 1;
    }

    /** ngx_close_cached_file */
    method CloseCached(i: Id, minUses: nat, now: int)
      requires i in files && Of(files[i].fd) <= open
      modifies this`files, this`queue, this`open
      ensures View() == CloseResult(old(View()), i, minUses, now)
    {
      if !files[i].close {
        files := files[i := files[i].(accessed := now)];
        queue := [i] + Remove(queue, i);
        if files[i].uses >= minUses || files[i].count > 0 {
          return;
        }
      }
      if files[i].count > 0 {
        return;
      }
      if files[i].fd != NO_FILE {
        CloseFd(files[i].fd);
        files := files[i := files[i].(fd := NO_FILE)];
      }
      if !files[i].close {
        return;
      }
      files := files - {i};
    }

    /** Lines 1126-1140: a record leaves the cache. */
    method Evict(i: Id, now: int)
      requires index.Valid() && i in files && i in index.entries && Of(files[i].fd) <= open
      requires files[i].err != 0 || files[i].isDir ==> files[i].count == 0 && files[i].fd == NO_FILE
      modifies this`files, this`queue, this`current, this`open, index, index.tree
      ensures index.Valid() && View() == Leave(old(View()), i)
    {
      ghost var s := View();
      Unindex(i);
      if files[i].err == 0 && !files[i].isDir {
        files := files[i := files[i].(close := true)];
        CloseCached(i, 0, now);
      } else {
        files := files - {i};
      }
      assert View() == Leave(s, i);
    }

    /** Lines 1116-1140: the least recently used record leaves the cache. */
    method PopTail(now: int, ghost s: State, ghost extra: set<Fd>)
      requires index.Valid() && View() == s && Inv(s, {}, extra) && queue != []
      modifies this`files, this`queue, this`current, this`open, index, index.tree
      ensures index.Valid() && View() == Pop(s)
    {
      Popped(s, extra);
      var i := queue[|queue| - 1];
      queue := queue[..|queue| - 1];
      Evict(i, now);
    }

    /** ngx_expire_old_cached_files */
    method ExpireOld(n0: nat, now: int, ghost s: State, ghost extra: set<Fd>) returns (ghost s': State)
      requires index.Valid() && View() == s && Inv(s, {}, extra) && n0 <= 3
      modifies this`files, this`queue, this`current, this`open, index, index.tree
      ensures index.Valid() && View() == s' && Expired(s, s', n0, now, inactive, extra)
    {
      var n := n0;
      s' := s;
      ExpireStart(s, n0, now, inactive, extra);
      while n < 3
        invariant index.Valid() && View() == s' && Expiring(s, s', n0, n, now, inactive, extra)
        decreases 3 - n
      {
        var more;
        more, s' := ExpireOne(n, now, s', s, n0, extra);
        if !more {
          return;
        }
        n := n + 1;
      }
      ExpireStops(s, s', n0, n, now, inactive, extra);
    }

    /** One turn: the record at the tail goes if it is inactive, or if it must. */
    method ExpireOne(n: nat, now: int, ghost t: State, ghost s: State, ghost n0: nat, ghost extra: set<Fd>)
        returns (more: bool, ghost t': State)
      requires index.Valid() && View() == t && Expiring(s, t, n0, n, now, inactive, extra) && n < 3
      modifies this`files, this`queue, this`current, this`open, index, index.tree
      ensures index.Valid() && View() == t'
      ensures if more then Expiring(s, t', n0, n + 1, now, inactive, extra)
              else Expired(s, t', n0, now, inactive, extra)
    {
      t' := t;
      if queue == [] {
        ExpireStops(s, t, n0, n, now, inactive, extra);
        return false, t;
      }
      ExpireStep(s, t, n0, n, now, inactive, extra);
      var i := queue[|queue| - 1];
      if n != 0 && now - files[i].accessed <= inactive {
        ExpireStops(s, t, n0, n, now, inactive, extra);
        return false, t;
      }
      PopTail(now, t, extra);
      return true, Pop(t);
    }

    /** ngx_open_file_cleanup: a request gives its descriptor back. */
    method Release(i: Id, minUses: nat, now: int)
      requires Valid() && i in files && (i, files[i].fd) in holders
      modifies this`files, this`queue, this`current, this`open, this`holders, index, index.tree
      ensures Valid() && holders == old(holders) - multiset{(i, old(files[i].fd))}
      ensures old(files[i].count) > 0
      ensures Expired(CloseResult(Give(old(View()), i), i, minUses, now), View(), 1, now, inactive, {})
    {
      ghost var s := View();
      Released(s, i, minUses, now);
      files := files[i := files[i].(count := files[i].count - 1)];
      holders := holders - multiset{(i, files[i].fd)};
      assert View() == Give(s, i);
      CloseCached(i, minUses, now);
      ghost var t := View();
      ghost var s' := ExpireOld(1, now, t, {});
      ghost var k: nat :| Trimmed(t, s', k) && Inv(s', {}, {});
    }

    /** ngx_open_and_stat_file, lines 839-945 */
    method OpenAndStat(q: Query, env: Env) returns (o: Outcome)
      requires EnvOk(env, open)
      modifies this`open
      ensures o == Answer(q, env) && open == old(open) + Of(NewFd(q, env))
    {
      if q.fd != NO_FILE {
        if env.stat.Fail? {
          return Failure(env.stat.err, q.uniq);
        }
        if env.stat.uniq == q.uniq {
          return Outcome(true, 0, q.fd, env.stat.uniq, env.stat.isDir);
        }
      } else if q.testDir {
        if env.stat.Fail? {
          return Failure(env.stat.err, q.uniq);
        }
        if env.stat.isDir {
          return Outcome(true, 0, q.fd, env.stat.uniq, true);
        }
      }
      if env.open.NoFile? {
        return Failure(env.open.err, q.uniq);
      }
      var fd := env.open.fd;
      open := open + {fd};
      if env.fstat.Fail? {
        CloseFd(fd);
        return Failure(0, q.uniq);
      }
      if env.fstat.isDir {
        CloseFd(fd);
        fd := NO_FILE;
      }
      return Outcome(true, 0, fd, env.fstat.uniq, env.fstat.isDir);
    }

    /** From add_event on, lines 393-430: the record takes what the file system said. */
    method Update(i: Id, o: Outcome, req: Request, now: int)
      requires i in files && files[i].count + 1 < COUNT_LIMIT
      modifies this`files, this`queue, this`holders
      ensures View() == Renewed(old(View()), i, o, req, now)
    {
      files := files[i := Updated(files[i], o, req.sym, now)];
      if o.err == 0 && !o.isDir {
        Count(i);
      }
      ToHead(i, now);
    }

    /** The record is updated in place. */
    method Renew(i: Id, ghost key: Key, o: Outcome, req: Request, now: int, ghost u: State) returns (ghost s': State)
      requires index.Valid() && View() == u && i in u.cached && u.cached[i] == key && !Refused(o, req)
      requires i in files && files[i].count + 1 < COUNT_LIMIT
      modifies this`files, this`queue, this`holders
      ensures index.Valid() && View() == s' && s' == Renewed(u, i, o, req, now)
      ensures Kept(s', i, key, o, req, now, false, u.files[i].uses)
    {
      RenewedCarries(u, i, key, o, req, now);
      Update(i, o, req, now);
      s' := Renewed(u, i, o, req, now);
    }

    /** file->count++ */
    method Count(i: Id)
      requires i in files && files[i].count + 1 < COUNT_LIMIT
      modifies this`files, this`holders
      ensures View() == Take(old(View()), i)
    {
      holders := holders + multiset{(i, files[i].fd)};
      files := files[i := files[i].(count := (files[i].count + 1) % COUNT_LIMIT)];
    }

    /** Lines 426-430 */
    method ToHead(i: Id, now: int)
      requires i in files
      modifies this`files, this`queue
      ensures View() == Serve(old(View()), i, false, now)
    {
      files := files[i := files[i].(accessed := now)];
      queue := [i] + queue;
    }

    /** Lines 240-268: a valid record answers without the file system. */
    method Hit(i: Id, req: Request, now: int) returns (o: Outcome)
      requires i in files && files[i].count + 1 < COUNT_LIMIT
      modifies this`files, this`queue, this`holders
      ensures o == Recorded(old(files)[i], req)
      ensures View() == Serve(old(View()), i, o.ok && !o.isDir, now)
    {
      o := Recorded(files[i], req);
      if files[i].err == 0 && !files[i].isDir {
        Count(i);
      }
      ToHead(i, now);
    }

    /** Lines 213-215 */
    method Use(i: Id, ghost s: State, ghost own: set<Id>) returns (ghost t: State)
      requires View() == s && Good(s) && i in s.files && i in s.cached && i in own
      modifies this`files, this`queue
      ensures View() == t && Used(s, t, i) && Spares(s, t, own, 0)
    {
      t := Put(s, i, UsedOnce(s.files[i])).(queue := Remove(s.queue, i));
      UsedKeeps(s, t, i);
      UsedSpares(s, t, i, own);
      files := files[i := files[i].(uses := (files[i].uses + 1) % USES_LIMIT)];
      queue := Remove(queue, i);
    }

    /** Lines 343-347 */
    method Retire(i: Id)
      requires index.Valid() && i in files && i in index.entries
      modifies this`files, this`current, index, index.tree
      ensures index.Valid() && View() == Detach(old(View()), i)
    {
      Unindex(i);
      files := files[i := files[i].(close := true)];
    }

    /** Lines 455-476: the record is given up. */
    method GiveUp(i: Id)
      requires index.Valid() && i in files && i in index.entries && Of(files[i].fd) <= open
      modifies this`files, this`current, this`open, index, index.tree
      ensures index.Valid() && View() == Leave(old(View()), i)
    {
      ghost var s := View();
      Unindex(i);
      if files[i].count == 0 {
        if files[i].fd != NO_FILE {
          CloseFd(files[i].fd);
        }
        files := files - {i};
      } else {
        files := files[i := files[i].(close := true)];
      }
      assert View() == Leave(s, i);
    }

    /** Lines 362-364 */
    method MakeRoom(now: int, ghost s: State, ghost extra: set<Fd>, ghost own: set<Id>)
        returns (ghost t: State, ghost k: nat)
      requires index.Valid() && View() == s && Inv(s, {}, extra) && (max >= 1 ==> current <= max)
      requires own !! s.cached.Keys
      modifies this`files, this`queue, this`current, this`open, index, index.tree
      ensures index.Valid() && View() == t && Inv(t, {}, extra) && Trimmed(s, t, k) && (max >= 1 ==> t.current < max)
      ensures Displaces(s, t, own, s.current >= max, now, inactive)
    {
      t, k := s, 0;
      TrimNone(s);
      DisplacesNone(s, own, now, inactive);
      if current >= max {
        t := ExpireOld(0, now, s, extra);
        if max >= 1 { ForcedExpiry(s, t, now, inactive, extra); }
        ExpiryDisplaces(s, t, own, now, inactive, extra);
        k :| Trimmed(s, t, k) && Inv(t, {}, extra);
      }
    }

    /** Lines 366-391: the record is allocated and indexed; the rest of it is whatever was in memory. */
    method AddRecord(id: Id, key: Key, junk: File)
      requires index.Valid() && id !in index.entries && id != index.tree.sentinel
      modifies this`files, this`current, index, index.tree
      ensures index.Valid() && View() == Create(old(View()), id, NewFile(key, junk))
    {
      files := files[id := NewFile(key, junk)];
      index.Insert(id, key);
      current := current + 1;
    }

    /** Lines 366-430 */
    method NewRecord(key: Key, o: Outcome, req: Request, now: int, id: Id, junk: File)
      requires index.Valid() && id !in index.entries && id != index.tree.sentinel
      modifies this`files, this`queue, this`current, this`holders, index, index.tree
      ensures index.Valid() && View() == Entered(old(View()), id, key, junk, o, req, now)
    {
      ghost var t := View();
      AddRecord(id, key, junk);
      Update(id, o, req, now);
      EnteredIs(t, id, key, junk, o, req, now);
    }

    /** Lines 478-483: without memory for a record the file is closed. */
    method NoRecord(fd: Fd, ghost t: State)
      requires View() == t && Of(fd) <= t.open
      modifies this`open
      ensures View() == t.(open := t.open - Of(fd))
    {
      if fd != NO_FILE {
        CloseFd(fd);
      }
    }

    /** From create on, lines 360-430 and 478-483: room is made and a new record enters the cache. */
    method CreateNew(key: Key, o0: Outcome, req: Request, now: int, id: Id, junk: File, alloc: bool, ghost s: State,
                     ghost sound: bool, ghost j: Id, ghost own: set<Id>)
        returns (o: Outcome, ghost s': State)
      requires index.Valid() && View() == s && Inv(s, {}, if sound then Of(o0.fd) else {}) &&
               (max >= 1 ==> current <= max)
      requires key !in s.cached.Values && id !in s.files && id != index.tree.sentinel
      requires id in own && own !! s.cached.Keys
      requires (if sound then Proper(o0) else Stale(s, j, o0.fd)) && !Refused(o0, req)
      modifies this`files, this`queue, this`current, this`open, this`holders, index, index.tree
      ensures index.Valid() && View() == s' && o == Final(o0, !alloc) &&
              (max >= 1 ==> s'.current <= max)
      ensures if sound then Good(s') && Handed(s, s', key, o.ok && !o.isDir, o.fd) else !Good(s')
      ensures Kept(s', id, key, o, req, now, !alloc, 1) && Displaces(s, s', own, s.current >= max, now, inactive)
    {
      ghost var t, k := MakeRoom(now, s, if sound then Of(o0.fd) else {}, own);
      EnteredDisplaces(s, t, id, key, junk, o0, req, now, own, s.current >= max, inactive);
      Entering(s, t, k, key, o0, req, now, id, junk, sound, j);
      if !alloc {
        NoRecord(o0.fd, t);
        return o0.(ok := false), t.(open := t.open - Of(o0.fd));
      }
      NewRecord(key, o0, req, now, id, junk);
      EnteredCarries(t, id, key, junk, o0, req, now);
      return o0, Entered(t, id, key, junk, o0, req, now);
    }

    // ----- opening a file -----

    /** ngx_open_cached_file */
    method Open(key: Key, req: Request, now: int, env: Env, id: Id, junk: File, alloc: bool) returns (o: Outcome)
      requires Valid() && EnvOk(env, open) && id !in files && id != index.tree.sentinel
      requires forall i :: i in index.entries && index.entries[i] == key && i in files ==>
               files[i].count + 1 < COUNT_LIMIT
      modifies this`files, this`queue, this`current, this`open, this`holders, index, index.tree
      ensures index.Valid() && (max >= 1 ==> current <= max)
      ensures Concluded(old(View()), View(), key, o, req, now, env, alloc, id)
      ensures Crowds(old(View()), View(), key, req, now, env, id, max, inactive)
    {
      ghost var s, s' := View(), View();
      var found := index.Lookup(key);
      if found.Some? {
        NameIsUnique(s, key, found.id);
        o, s' := OpenFound(found.id, key, req, now, env, id, junk, alloc, s);
        FoundConcludes(s, s', found.id, key, o, req, now, env, alloc, id);
      } else {
        o, s' := OpenMissing(key, req, now, env, id, junk, alloc, s);
        MissingConcludes(s, s', key, o, req, now, env, alloc, id);
      }
    }

    /** Lines 352-358: the name is not cached. */
    method OpenMissing(key: Key, req: Request, now: int, env: Env, id: Id, junk: File, alloc: bool, ghost s: State)
        returns (o: Outcome, ghost s': State)
      requires index.Valid() && View() == s && Good(s) && (max >= 1 ==> current <= max) && EnvOk(env, s.open)
      requires id !in files && id != index.tree.sentinel && key !in s.cached.Values
      modifies this`files, this`queue, this`current, this`open, this`holders, index, index.tree
      ensures index.Valid() && View() == s' && Good(s') && (max >= 1 ==> s'.current <= max)
      ensures Handed(s, s', key, o.ok && !o.isDir, o.fd) && Discovers(s', key, o, req, now, env, alloc, id)
      ensures Displaces(s, s', {id}, !Refused(Answer(NewQuery(req), env), req) && s.current >= max, now, inactive)
    {
      o := OpenAndStat(NewQuery(req), env);
      Probed(s, NewQuery(req), env, {});
      ghost var u := s.(open := s.open + Of(o.fd));
      s' := u;
      if Refused(o, req) {
        DisplacesNone(u, {id}, now, inactive);
        ProbedDisplaces(s, u, u, {id}, false, now, inactive);
        return;
      }
      assert EntryOk(s, id);
      o, s' := CreateNew(key, o, req, now, id, junk, alloc, u, true, 0, {id});
      ProbedDisplaces(s, u, s', {id}, s.current >= max, now, inactive);
    }

    /** Lines 211-350: the name is cached. */
    method OpenFound(i: Id, key: Key, req: Request, now: int, env: Env, id: Id, junk: File, alloc: bool, ghost s: State)
        returns (o: Outcome, ghost s': State)
      requires index.Valid() && View() == s && Good(s) && (max >= 1 ==> current <= max) && EnvOk(env, s.open)
      requires i in s.cached && s.cached[i] == key && i in s.files && s.files[i].count + 1 < COUNT_LIMIT
      requires id !in files && id != index.tree.sentinel
      modifies this`files, this`queue, this`current, this`open, this`holders, index, index.tree
      ensures index.Valid() && View() == s' && (max >= 1 ==> s'.current <= max)
      ensures Settled(s, s', s.files[i], key, o, req, now, env)
      ensures Updates(UsedOnce(s.files[i]), s', i, key, o, req, now, env, alloc, id)
      ensures Displaces(s, s', {i, id}, NeedsRoom(s.files[i], req, now, env) && s.current > max, now, inactive)
    {
      ghost var t := Use(i, s, {i, id});
      assert index.Valid();
      o, s' := OpenUsed(i, key, req, now, env, id, junk, alloc, t);
      UsedAsks(s, t, i, req, now, env);
      SettledSince(s, t, s', i, key, o, req, now, env);
      UsedDisplaces(s, t, s', {i, id}, NeedsRoom(s.files[i], req, now, env) && s.current > max, now, inactive);
    }

    /** Lines 217-350 */
    method OpenUsed(i: Id, key: Key, req: Request, now: int, env: Env, id: Id, junk: File, alloc: bool, ghost t: State)
        returns (o: Outcome, ghost s': State)
      requires index.Valid() && View() == t && Inv(t, {i}, {}) && (max >= 1 ==> current <= max) && EnvOk(env, t.open)
      requires i in t.cached && t.cached[i] == key && i in t.files && t.files[i].count + 1 < COUNT_LIMIT
      requires id !in files && id != index.tree.sentinel
      modifies this`files, this`queue, this`current, this`open, this`holders, index, index.tree
      ensures index.Valid() && View() == s' && (max >= 1 ==> s'.current <= max)
      ensures Settled(t, s', t.files[i], key, o, req, now, env)
      ensures Updates(t.files[i], s', i, key, o, req, now, env, alloc, id)
      ensures Displaces(t, s', {i, id}, NeedsRoom(t.files[i], req, now, env) && t.current > max, now, inactive)
    {
      if Shut(files[i]) {
        o, s' := Reopen(i, key, req, now, env, t, alloc, id);
        SparesDisplaces(t, s', {i, id}, now, inactive);
      } else if Fresh(files[i], req, now) {
        HitServes(t, i, key, req, now, env, {i, id}, inactive);
        o := Hit(i, req, now);
        s' := Serve(t, i, o.ok && !o.isDir, now);
      } else {
        o, s' := Retest(i, key, req, now, env, id, junk, alloc, t);
      }
    }

    /** Lines 217-228: the file was not used often enough to keep open. */
    method Reopen(i: Id, key: Key, req: Request, now: int, env: Env, ghost t: State, ghost alloc: bool,
                  ghost id: Id)
        returns (o: Outcome, ghost s': State)
      requires index.Valid() && View() == t && Inv(t, {i}, {}) && EnvOk(env, t.open)
      requires i in t.cached && t.cached[i] == key && i in t.files && t.files[i].count + 1 < COUNT_LIMIT &&
               Shut(t.files[i])
      modifies this`files, this`queue, this`current, this`open, this`holders, index, index.tree
      ensures index.Valid() && View() == s' && s'.current <= t.current
      ensures Reopens(t, s', i, key, o, req, now, env, alloc, id)
    {
      AnswerReopens(t, i, req, now, env, key, alloc, id);
      o, s' := OpenAgain(i, req, now, env, t);
    }

    /** The file is opened, and the record given up or updated. */
    method OpenAgain(i: Id, req: Request, now: int, env: Env, ghost t: State) returns (o: Outcome, ghost s': State)
      requires index.Valid() && View() == t && i in t.cached && i in t.files && t.files[i].count + 1 < COUNT_LIMIT
      requires EnvOk(env, t.open) && Of(t.files[i].fd) <= t.open
      modifies this`files, this`queue, this`current, this`open, this`holders, index, index.tree
      ensures index.Valid() && View() == s'
      ensures o == Answer(NewQuery(req), env) && s' == ReopenedState(t, i, o, req, now)
    {
      o := OpenAndStat(NewQuery(req), env);
      assert index.Valid();
      if Refused(o, req) {
        GiveUp(i);
      } else {
        Update(i, o, req, now);
      }
      s' := View();
    }

    /** Lines 275-349: the record is checked against the file system. */
    method Retest(i: Id, key: Key, req: Request, now: int, env: Env, id: Id, junk: File, alloc: bool, ghost t: State)
        returns (o: Outcome, ghost s': State)
      requires index.Valid() && View() == t && Inv(t, {i}, {}) && (max >= 1 ==> current <= max) && EnvOk(env, t.open)
      requires i in t.cached && t.cached[i] == key && i in t.files && t.files[i].count + 1 < COUNT_LIMIT
      requires id !in files && id != index.tree.sentinel && !Shut(t.files[i]) && !Fresh(t.files[i], req, now)
      modifies this`files, this`queue, this`current, this`open, this`holders, index, index.tree
      ensures index.Valid() && View() == s' && (max >= 1 ==> s'.current <= max)
      ensures Settled(t, s', t.files[i], key, o, req, now, env)
      ensures Asks(t.files[i], s', i, key, o, req, now, env, alloc, id)
      ensures Displaces(t, s', {i, id}, Anew(t.files[i], req, env) && t.current > max, now, inactive)
    {
      var f := files[i];
      var q := QueryFor(f, req);
      o := OpenAndStat(q, env);
      assert index.Valid();
      ghost var u := t.(open := t.open + Of(NewFd(q, env)));
      if Refused(o, req) {
        s' := Abandon(i, o, key, req, now, env, id, alloc, t, u);
        return;
      }
      o, s' := Settle(i, o, key, req, now, env, id, junk, alloc, t, u);
    }

    /** Lines 455-476 */
    method Abandon(i: Id, ghost o: Outcome, ghost key: Key, ghost req: Request, ghost now: int, ghost env: Env,
                   ghost id: Id, ghost alloc: bool, ghost t: State, ghost u: State)
        returns (ghost s': State)
      requires index.Valid() && View() == u && Named(t, i, key) && Inv(t, {i}, {}) && EnvOk(env, t.open)
      requires Refused(o, req) && !Shut(t.files[i]) && !Fresh(t.files[i], req, now)
      requires var q := QueryFor(t.files[i], req); o == Answer(q, env) && u == t.(open := t.open + Of(NewFd(q, env)))
      modifies this`files, this`current, this`open, index, index.tree
      ensures index.Valid() && View() == s' && s'.current <= t.current
      ensures Settled(t, s', t.files[i], key, o, req, now, env)
      ensures Asks(t.files[i], s', i, key, o, req, now, env, alloc, id)
      ensures Displaces(t, s', {i, id}, false, now, inactive)
    {
      Abandoned(t, u, i, key, o, req, now, env, alloc, id, inactive);
      GiveUp(i);
      s' := Leave(t, i);
    }

    /** Lines 295-349 */
    method Settle(i: Id, o0: Outcome, key: Key, req: Request, now: int, ghost env: Env, id: Id, junk: File, alloc: bool,
                  ghost t: State, ghost u: State)
        returns (o: Outcome, ghost s': State)
      requires index.Valid() && View() == u && Asked(t, u, i, o0, req, now, env) && t.cached[i] == key &&
               (max >= 1 ==> current <= max)
      requires t.files[i].count + 1 < COUNT_LIMIT && id !in files && id != index.tree.sentinel
      modifies this`files, this`queue, this`current, this`open, this`holders, index, index.tree
      ensures index.Valid() && View() == s' && (max >= 1 ==> s'.current <= max)
      ensures Settled(t, s', t.files[i], key, o, req, now, env)
      ensures Asks(t.files[i], s', i, key, o, req, now, env, alloc, id)
      ensures Displaces(t, s', {i, id}, Anew(t.files[i], req, env) && t.current > max, now, inactive)
    {
      o := o0;
      var f := files[i];
      if f.isDir || f.err != 0 || Unchanged(f, o) {
        UpdateInPlace(t, u, i, o, req, now, env, key);
        s' := Renew(i, key, o, req, now, u);
        RenewedSpares(t, u, i, o, req, now, {i, id});
        SparesDisplaces(t, s', {i, id}, now, inactive);
        return;
      }
      if f.count == 0 {
        s' := Refill(i, o, key, req, now, env, t, u, {i, id});
        SparesDisplaces(t, s', {i, id}, now, inactive);
        return;
      }
      o, s' := Replace(i, o, key, req, now, env, id, junk, alloc, t, u);
    }

    /** Lines 331-341: nobody holds the descriptor of the record. */
    method Refill(i: Id, o: Outcome, ghost key: Key, req: Request, now: int, ghost env: Env, ghost t: State,
                  ghost u: State, ghost own: set<Id>)
        returns (ghost s': State)
      requires index.Valid() && View() == u && Asked(t, u, i, o, req, now, env) && t.cached[i] == key
      requires t.files[i].count == 0 && !t.files[i].isDir && t.files[i].err == 0 && !Unchanged(t.files[i], o)
      modifies this`files, this`queue, this`open, this`holders
      ensures index.Valid() && View() == s' && s'.current == t.current
      ensures Settled(t, s', t.files[i], key, o, req, now, env)
      ensures Kept(s', i, key, o, req, now, false, t.files[i].uses) && (i in own ==> Spares(t, s', own, 0))
    {
      UpdateAfterClose(t, u, i, o, req, now, env, key);
      ghost var v := u.(open := u.open - Of(t.files[i].fd));
      CloseFd(files[i].fd);
      s' := Renew(i, key, o, req, now, v);
      if i in own {
        RenewedSpares(t, v, i, o, req, now, own);
      }
    }

    /** Lines 343-349: requests still hold the descriptor of the record. */
    method Replace(i: Id, o0: Outcome, key: Key, req: Request, now: int, ghost env: Env, id: Id, junk: File,
                   alloc: bool,
                   ghost t: State, ghost u: State) returns (o: Outcome, ghost s': State)
      requires index.Valid() && View() == u && Asked(t, u, i, o0, req, now, env) && t.cached[i] == key
      requires (max >= 1 ==> current <= max) && id !in files && id != index.tree.sentinel
      requires t.files[i].count > 0 && !t.files[i].isDir && t.files[i].err == 0 && !Unchanged(t.files[i], o0)
      modifies this`files, this`queue, this`current, this`open, this`holders, index, index.tree
      ensures index.Valid() && View() == s' && (max >= 1 ==> s'.current <= max)
      ensures Settled(t, s', t.files[i], key, o, req, now, env)
      ensures o == Final(o0, !alloc) && Kept(s', id, key, o, req, now, !alloc, 1)
      ensures Displaces(t, s', {i, id}, t.current > max, now, inactive)
    {
      ReplaceInUse(t, u, i, o0, req, now, env, key);
      assert EntryOk(t, id);
      Retire(i);
      o, s' := CreateNew(key, o0, req, now, id, junk, alloc, Detach(u, i), !Confused(t.files[i], req, now, env), i,
                         {i, id});
      RetiredDisplaces(t, u, s', i, {i, id}, t.current > max, now, inactive);
    }
  }

  /** The state once a new record is filled and served. */
  function Entered(t: State, id: Id, key: Key, junk: File, o: Outcome, req: Request, now: int): State {
    Serve(Create(t, id, Updated(NewFile(key, junk), o, req.sym, now)), id, o.err == 0 && !o.isDir, now)
  }

  lemma EnteredIs(t: State, id: Id, key: Key, junk: File, o: Outcome, req: Request, now: int)
    ensures Entered(t, id, key, junk, o, req, now)
         == Serve(Put(Create(t, id, NewFile(key, junk)), id, Updated(NewFile(key, junk), o, req.sym, now)), id,
             o.err == 0 && !o.isDir, now)
  {
    var f, g := NewFile(key, junk), Updated(NewFile(key, junk), o, req.sym, now);
    assert Put(Create(t, id, f), id, g) == Create(t, id, g);
  }

  /** What follows from making room, with and without memory for the record. */
  lemma Entering(s: State, t: State, k: nat, key: Key, o: Outcome, req: Request, now: int, id: Id, junk: File,
                 sound: bool, j: Id)
    requires Inv(t, {}, if sound then Of(o.fd) else {}) && Trimmed(s, t, k) && key !in s.cached.Values && id !in s.files
    requires if sound then Proper(o) else Stale(s, j, o.fd)
    ensures id !in t.cached && Of(o.fd) <= t.open && key !in t.cached.Values
    ensures var a := t.(open := t.open - Of(o.fd)); if sound then Good(a) && a.holders == s.holders else !Good(a)
    ensures var b := Entered(t, id, key, junk, o, req, now);
      b.current == t.current + 1 && if sound then Good(b) && Handed(s, b, key, o.ok && !o.isDir, o.fd) else !Good(b)
  {
    TrimKeeps(s, t, k, key, id, j, o.fd);
    Unallocated(t, o.fd, j);
    FdIsOpen(t, {}, o.fd, j);
    assert EntryOk(t, id);
    var f := Updated(NewFile(key, junk), o, req.sym, now);
    if sound { NewServed(t, id, f, o.ok && !o.isDir, now); }
    else { NewShares(t, id, f, o.err == 0 && !o.isDir, now, j); }
  }

  // ----- the request on values -----

  /** The request for key, whose record was f, is served and the invariant kept, unless the file system lies. */
  ghost predicate Settled(s: State, s': State, f: File, key: Key, o: Outcome, req: Request, now: int, env: Env) {
    if Confused(f, req, now, env) then !Good(s') else Good(s') && Handed(s, s', key, o.ok && !o.isDir, o.fd)
  }

  /** The record i carries the answer. */
  ghost predicate Carries(s: State, i: Id, key: Key, o: Outcome, req: Request, now: int, uses: nat) {
    && i in s.cached && s.cached[i] == key && i in s.files
    && var f := s.files[i];
      && f.fd == o.fd && f.err == o.err && f.sym == req.sym && f.created == now && f.accessed == now && f.uses == uses
      && (o.err == 0 ==> f.uniq == o.uniq && f.isDir == o.isDir)
  }

  /** What the cache remembers of an answer of the file system: all of it, or nothing under this name. */
  ghost predicate Kept(s: State, i: Id, key: Key, o: Outcome, req: Request, now: int, lost: bool, uses: nat) {
    if Refused(o, req) || lost then key !in s.cached.Values else Carries(s, i, key, o, req, now, uses)
  }

  /** The record of a valid answer stays as it was. */
  ghost predicate Stays(f: File, s: State, i: Id, key: Key, now: int, take: bool) {
    && i in s.cached && s.cached[i] == key && i in s.files
    && s.files[i] == f.(count := f.count + if take then 1 else 0, accessed := now)
  }

  /** Without memory for its record an answer is lost. */
  function Final(o: Outcome, lost: bool): Outcome { if lost then o.(ok := false) else o }

  /** Lines 343-349: requests hold the file of the record, and the name is another file's now. */
  predicate Superseded(f: File, o: Outcome) { !f.isDir && f.err == 0 && !Unchanged(f, o) && f.count > 0 }

  /** The answer for a name with record f needs a record of its own. */
  predicate Anew(f: File, req: Request, env: Env) {
    var o := Answer(QueryFor(f, req), env);
    !Shut(f) && !Refused(o, req) && Superseded(f, o)
  }

  /** A new record is needed, and room for it. */
  predicate NeedsRoom(f: File, req: Request, now: int, env: Env) {
    !(!Shut(f) && Fresh(f, req, now)) && Anew(f, req, env)
  }

  /** The file system was asked about a name with record f = record i; a new record would be id. */
  ghost predicate Asks(f: File, s: State, i: Id, key: Key, o: Outcome, req: Request, now: int, env: Env, alloc: bool,
                       id: Id)
  {
    var anew := Anew(f, req, env);
    && o == Final(Answer(QueryFor(f, req), env), anew && !alloc)
    && Kept(s, if anew then id else i, key, o, req, now, anew && !alloc, if anew then 1 else f.uses)
  }

  /** What a name with record f = record i is answered, and what is cached then. */
  ghost predicate Updates(f: File, s: State, i: Id, key: Key, o: Outcome, req: Request, now: int, env: Env, alloc: bool,
                          id: Id)
  {
    if !Shut(f) && Fresh(f, req, now) then o == Recorded(f, req) && Stays(f, s, i, key, now, o.ok && !o.isDir)
    else Asks(f, s, i, key, o, req, now, env, alloc, id)
  }

  /** What a name without a record is answered, and what is cached then. */
  ghost predicate Discovers(s: State, key: Key, o: Outcome, req: Request, now: int, env: Env, alloc: bool, id: Id) {
    var lost := !Refused(Answer(NewQuery(req), env), req) && !alloc;
    o == Final(Answer(NewQuery(req), env), lost) && Kept(s, id, key, o, req, now, lost, 1)
  }

  lemma RenewedCarries(s: State, i: Id, key: Key, o: Outcome, req: Request, now: int)
    requires i in s.cached && s.cached[i] == key && i in s.files && !Refused(o, req)
    ensures Kept(Renewed(s, i, o, req, now), i, key, o, req, now, false, s.files[i].uses)
  {
    assert Carries(Renewed(s, i, o, req, now), i, key, o, req, now, s.files[i].uses);
  }

  lemma EnteredCarries(t: State, id: Id, key: Key, junk: File, o: Outcome, req: Request, now: int)
    requires !Refused(o, req)
    ensures Kept(Entered(t, id, key, junk, o, req, now), id, key, o, req, now, false, 1)
  {
    assert Carries(Entered(t, id, key, junk, o, req, now), id, key, o, req, now, 1);
  }

  lemma LeftForgets(t: State, i: Id, key: Key)
    requires Inv(t, {i}, {}) && i in t.cached && t.cached[i] == key && i in t.files
    ensures key !in Leave(t, i).cached.Values
  {
    forall j | j in t.cached && j != i ensures t.cached[j] != key { assert NamesDiffer(t, i, j); }
  }

  /** The name's record, if it is cached, meets a file system that contradicts itself. */
  ghost predicate Misled(s: State, key: Key, req: Request, now: int, env: Env) {
    exists i :: Named(s, i, key) && Confused(s.files[i], req, now, env)
  }

  /**
   What a request brings about: the invariant holds after it exactly if the file system did
   not contradict itself; then the caller holds what it was given.  A valid record answers and
   stays as it was; otherwise the file system answers, which is cached as given or not at all.
   */
  ghost predicate Concluded(s: State, s': State, key: Key, o: Outcome, req: Request, now: int, env: Env, alloc: bool,
                            id: Id)
  {
    && (Good(s') <==> !Misled(s, key, req, now, env))
    && (Good(s') ==> Handed(s, s', key, o.ok && !o.isDir, o.fd))
    && (forall i :: Named(s, i, key) ==> Updates(UsedOnce(s.files[i]), s', i, key, o, req, now, env, alloc, id))
    && (key !in s.cached.Values ==> Discovers(s', key, o, req, now, env, alloc, id))
  }

  /** What a request does to the records of other names: some may go if it needs a new record. */
  ghost predicate Crowds(s: State, s': State, key: Key, req: Request, now: int, env: Env, id: Id, max: nat,
                         inactive: int)
  {
    && (forall i :: Named(s, i, key) ==>
          Displaces(s, s', {i, id}, NeedsRoom(s.files[i], req, now, env) && s.current > max, now, inactive))
    && (key !in s.cached.Values ==>
          Displaces(s, s', {id}, !Refused(Answer(NewQuery(req), env), req) && s.current >= max, now, inactive))
  }

  ghost predicate Named(s: State, i: Id, key: Key) { i in s.cached && s.cached[i] == key && i in s.files }

  lemma FoundConcludes(s: State, s': State, i: Id, key: Key, o: Outcome, req: Request, now: int, env: Env, alloc: bool,
                       id: Id)
    requires Named(s, i, key) && forall j :: j in s.cached && s.cached[j] == key ==> j == i
    requires Settled(s, s', s.files[i], key, o, req, now, env)
    requires Updates(UsedOnce(s.files[i]), s', i, key, o, req, now, env, alloc, id)
    ensures Concluded(s, s', key, o, req, now, env, alloc, id)
  {
  }

  lemma MissingConcludes(s: State, s': State, key: Key, o: Outcome, req: Request, now: int, env: Env, alloc: bool,
                         id: Id)
    requires key !in s.cached.Values && Good(s') && Handed(s, s', key, o.ok && !o.isDir, o.fd)
    requires Discovers(s', key, o, req, now, env, alloc, id)
    ensures Concluded(s, s', key, o, req, now, env, alloc, id)
  {
  }

  lemma NameIsUnique(s: State, key: Key, i: Id)
    requires Good(s) && i in s.cached && s.cached[i] == key
    ensures i in s.files && forall j :: j in s.cached && s.cached[j] == key ==> j == i
  {
    assert EntryOk(s, i);
    forall j | j in s.cached && s.cached[j] == key ensures j == i { assert NamesDiffer(s, i, j); }
  }

  /** The record i is one use older and off the queue. */
  ghost predicate Used(s: State, t: State, i: Id) {
    && i in s.files && t.files.Keys == s.files.Keys && t.files[i] == UsedOnce(s.files[i]) &&
       i in t.cached
    && t.cached == s.cached && t.current == s.current && t.open == s.open && t.holders == s.holders && Inv(t, {i}, {})
  }

  lemma UsedKeeps(s: State, t: State, i: Id)
    requires Good(s) && i in s.cached && i in s.files
    requires t == Put(s, i, UsedOnce(s.files[i])).(queue := Remove(s.queue, i))
    ensures Used(s, t, i)
  {
    var f := UsedOnce(s.files[i]);
    Touched(s, i, f, {}, {});
    Unqueued(Put(s, i, f), i, {});
  }

  lemma UsedSpares(s: State, t: State, i: Id, own: set<Id>)
    requires i in own && i in s.files && i in t.files && t.cached == s.cached
    requires t.files == s.files[i := t.files[i]] && t.queue == Remove(s.queue, i)
    ensures Spares(s, t, own, 0)
  {
    WithoutRemoved(s.queue, i, own);
    SparesAll(s, t, own);
  }

  lemma ServedSpares(t: State, u: State, i: Id, take: bool, now: int, own: set<Id>)
    requires i in own && i in u.files && u.cached == t.cached && u.queue == t.queue
    requires forall j :: j != i ==> (j in u.files <==> j in t.files) && (j in u.files ==> u.files[j] == t.files[j])
    ensures Spares(t, Serve(u, i, take, now), own, 0)
  {
    var s' := Serve(u, i, take, now);
    assert ([i] + t.queue)[1..] == t.queue;
    forall j | j !in own ensures Same(t, s', j) { }
    SparesAll(t, s', own);
  }

  lemma RenewedSpares(t: State, u: State, i: Id, o: Outcome, req: Request, now: int, own: set<Id>)
    requires i in own && i in t.files && u.files == t.files && u.cached == t.cached && u.queue == t.queue
    ensures Spares(t, Renewed(u, i, o, req, now), own, 0)
  {
    ServedSpares(t, Put(u, i, Updated(u.files[i], o, req.sym, now)), i, o.err == 0 && !o.isDir, now, own);
  }

  lemma LeftSpares(t: State, i: Id, own: set<Id>)
    requires i in own && i in t.files
    ensures Spares(t, Leave(t, i), own, 0)
  {
    SparesAll(t, Leave(t, i), own);
  }

  /** Room is made for the record id, which then enters the cache, or does not for want of memory. */
  lemma EnteredDisplaces(s: State, t: State, id: Id, key: Key, junk: File, o: Outcome, req: Request, now: int,
                         own: set<Id>, full: bool, inactive: int)
    requires Displaces(s, t, own, full, now, inactive) && id in own
    ensures Displaces(s, Entered(t, id, key, junk, o, req, now), own, full, now, inactive)
    ensures Displaces(s, t.(open := t.open - Of(o.fd)), own, full, now, inactive)
  {
    var a, b := t.(open := t.open - Of(o.fd)), Entered(t, id, key, junk, o, req, now);
    SparesAll(s, s, own);
    SparesAll(t, a, own);
    DisplacesThrough(s, s, t, a, own, full, now, inactive);
    assert ([id] + t.queue)[1..] == t.queue;
    forall j | j !in own ensures Same(t, b, j) { }
    SparesAll(t, b, own);
    DisplacesThrough(s, s, t, b, own, full, now, inactive);
  }

  lemma RetiredDisplaces(t: State, u: State, s': State, i: Id, own: set<Id>, full: bool, now: int, inactive: int)
    requires i in own && i in u.files && u.files == t.files && u.cached == t.cached && u.queue == t.queue
    requires Displaces(Detach(u, i), s', own, full, now, inactive)
    ensures Displaces(t, s', own, full, now, inactive)
  {
    SparesAll(t, Detach(u, i), own);
    SparesAll(s', s', own);
    DisplacesThrough(t, Detach(u, i), s', s', own, full, now, inactive);
  }

  lemma ProbedDisplaces(t: State, u: State, s': State, own: set<Id>, full: bool, now: int, inactive: int)
    requires u.files == t.files && u.cached == t.cached && u.queue == t.queue
    requires Displaces(u, s', own, full, now, inactive)
    ensures Displaces(t, s', own, full, now, inactive)
  {
    SparesAll(t, u, own);
    SparesAll(s', s', own);
    DisplacesThrough(t, u, s', s', own, full, now, inactive);
  }

  lemma UsedDisplaces(s: State, t: State, s': State, own: set<Id>, full: bool, now: int, inactive: int)
    requires Spares(s, t, own, 0) && Displaces(t, s', own, full, now, inactive)
    ensures Displaces(s, s', own, full, now, inactive)
  {
    SparesAll(s', s', own);
    DisplacesThrough(s, t, s', s', own, full, now, inactive);
  }

  /** The decisions do not depend on the number of uses. */
  lemma UsedAsks(s: State, t: State, i: Id, req: Request, now: int, env: Env)
    requires Used(s, t, i)
    ensures var f, g := s.files[i], t.files[i];
      && Shut(f) == Shut(g) && Fresh(f, req, now) == Fresh(g, req, now) &&
         Confused(f, req, now, env) == Confused(g, req, now, env)
      && QueryFor(f, req) == QueryFor(g, req) && NeedsRoom(f, req, now, env) == NeedsRoom(g, req, now, env)
  {
  }

  lemma SettledSince(s: State, t: State, s': State, i: Id, key: Key, o: Outcome, req: Request, now: int, env: Env)
    requires Used(s, t, i) && Settled(t, s', t.files[i], key, o, req, now, env)
    ensures Settled(s, s', s.files[i], key, o, req, now, env)
  {
  }

  /** A descriptor the call left open is in no record yet. */
  lemma Probed(s: State, q: Query, env: Env, out: set<Id>)
    requires Inv(s, out, {}) && EnvOk(env, s.open)
    ensures Inv(s.(open := s.open + Of(NewFd(q, env))), out, Of(NewFd(q, env)))
    ensures NewFd(q, env) == NO_FILE || NewFd(q, env) !in s.open
    ensures var o := Answer(q, env); o.fd == NewFd(q, env) && (o.ok || o.err != 0) ==> Proper(o)
    ensures q.fd == NO_FILE ==> Answer(q, env).fd == NewFd(q, env)
    ensures !Answer(q, env).ok ==> NewFd(q, env) == NO_FILE
  {
    var fd := NewFd(q, env);
    if fd == NO_FILE {
      assert s.(open := s.open + Of(fd)) == s;
    } else {
      CacheState.Opened(s, fd, out, {});
      assert {} + {fd} == {fd};
    }
  }

  /** The record takes the answer and is served. */
  function Renewed(s: State, i: Id, o: Outcome, req: Request, now: int): State
    requires i in s.files
  {
    Serve(Put(s, i, Updated(s.files[i], o, req.sym, now)), i, o.err == 0 && !o.isDir, now)
  }

  /** Lines 303-318: the same regular file. */
  predicate Unchanged(f: File, o: Outcome) { !o.isDir && o.err == 0 && o.uniq == f.uniq }

  /** An unused record takes another descriptor and gives up its own. */
  lemma Refreshed(u: State, i: Id, o: Outcome, req: Request, now: int, key: Key)
    requires Inv(u, {i}, Of(o.fd)) && Proper(o) && i in u.cached && u.cached[i] == key && i in u.files &&
             u.files[i].count == 0
    ensures Of(u.files[i].fd) <= u.open
    ensures var s' := Renewed(u.(open := u.open - Of(u.files[i].fd)), i, o, req, now);
      Good(s') && Handed(u, s', key, o.ok && !o.isDir, o.fd)
  {
    var g := Updated(u.files[i], o, req.sym, now);
    assert EntryOk(u, i) && RecordOk(u, i);
    Refilled(u, i, g, {i}, Of(o.fd));
    assert Of(o.fd) - Of(o.fd) == {};
    ServedHands(Put(u, i, g).(open := u.open - Of(u.files[i].fd)), i, o.ok && !o.isDir, now, key);
  }

  ghost predicate Reopens(t: State, s': State, i: Id, key: Key, o: Outcome, req: Request, now: int, env: Env,
                          alloc: bool, id: Id)
    requires i in t.files
  {
    && Settled(t, s', t.files[i], key, o, req, now, env)
    && Asks(t.files[i], s', i, key, o, req, now, env, alloc, id) && Spares(t, s', {i, id}, 0)
  }

  function ReopenedState(t: State, i: Id, o: Outcome, req: Request, now: int): State
    requires i in t.files
  {
    var u := t.(open := t.open + Of(o.fd));
    if Refused(o, req) then Leave(u, i) else Renewed(u, i, o, req, now)
  }

  lemma AnswerReopens(t: State, i: Id, req: Request, now: int, env: Env, key: Key, alloc: bool, id: Id)
    requires Inv(t, {i}, {}) && EnvOk(env, t.open) && Named(t, i, key) && Shut(t.files[i])
    ensures Of(t.files[i].fd) <= t.open
    ensures var o := Answer(NewQuery(req), env);
      Reopens(t, ReopenedState(t, i, o, req, now), i, key, o, req, now, env, alloc, id)
  {
    var o := Answer(NewQuery(req), env);
    var u := t.(open := t.open + Of(o.fd));
    Probed(t, NewQuery(req), env, {i});
    if Refused(o, req) {
      assert u == t;
      Left(t, i, {});
      LeftForgets(t, i, key);
      LeftSpares(t, i, {i, id});
    } else {
      assert RecordOk(t, i);
      assert u.(open := u.open - Of(NO_FILE)) == u;
      Refreshed(u, i, o, req, now, key);
      RenewedCarries(u, i, key, o, req, now);
      RenewedSpares(t, u, i, o, req, now, {i, id});
    }
  }

  lemma Abandoned(t: State, u: State, i: Id, key: Key, o: Outcome, req: Request, now: int, env: Env, alloc: bool,
                  id: Id, inactive: int)
    requires Inv(t, {i}, {}) && EnvOk(env, t.open) && Named(t, i, key) && Refused(o, req)
    requires !Shut(t.files[i]) && !Fresh(t.files[i], req, now)
    requires var q := QueryFor(t.files[i], req); o == Answer(q, env) && u == t.(open := t.open + Of(NewFd(q, env)))
    ensures u == t && Of(t.files[i].fd) <= t.open
    ensures Settled(t, Leave(t, i), t.files[i], key, o, req, now, env)
    ensures Asks(t.files[i], Leave(t, i), i, key, o, req, now, env, alloc, id)
    ensures Displaces(t, Leave(t, i), {i, id}, false, now, inactive)
  {
    Probed(t, QueryFor(t.files[i], req), env, {i});
    assert u == t;
    Left(t, i, {});
    LeftForgets(t, i, key);
    LeftSpares(t, i, {i, id});
    SparesDisplaces(t, Leave(t, i), {i, id}, now, inactive);
  }

  lemma HitServes(t: State, i: Id, key: Key, req: Request, now: int, env: Env, own: set<Id>, inactive: int)
    requires Inv(t, {i}, {}) && i in t.cached && t.cached[i] == key && i in t.files && !Shut(t.files[i]) &&
             Fresh(t.files[i], req, now) && i in own
    ensures var o := Recorded(t.files[i], req); var s' := Serve(t, i, o.ok && !o.isDir, now);
      && Settled(t, s', t.files[i], key, o, req, now, env)
      && Stays(t.files[i], s', i, key, now, o.ok && !o.isDir) && Displaces(t, s', own, false, now, inactive)
  {
    var o := Recorded(t.files[i], req);
    ServedHands(t, i, o.ok && !o.isDir, now, key);
    ServedSpares(t, t, i, o.ok && !o.isDir, now, own);
    SparesDisplaces(t, Serve(t, i, o.ok && !o.isDir, now), own, now, inactive);
  }

  /** The record i is out of the queue and its file was asked about. */
  ghost predicate Asked(t: State, u: State, i: Id, o: Outcome, req: Request, now: int, env: Env) {
    && i in t.cached && i in t.files && !Shut(t.files[i]) && !Fresh(t.files[i], req, now) && !Refused(o, req)
    && Inv(t, {i}, {}) && EnvOk(env, t.open)
    && var q := QueryFor(t.files[i], req); o == Answer(q, env) && u == t.(open := t.open + Of(NewFd(q, env)))
  }

  /** What the answer says about descriptors, unless the file system contradicts itself. */
  lemma AnswerFds(f: File, req: Request, now: int, env: Env)
    requires !Shut(f) && !Fresh(f, req, now) && !Refused(Answer(QueryFor(f, req), env), req) &&
             (env.open.Opened? ==> env.open.fd >= 0)
    ensures var q := QueryFor(f, req); var o := Answer(q, env);
      && (!Unchanged(f, o) && !Confused(f, req, now, env) ==> o.fd == NewFd(q, env))
      && (!Unchanged(f, o) && Confused(f, req, now, env) ==> o.isDir && o.fd == f.fd && NewFd(q, env) == NO_FILE)
      && (f.fd != NO_FILE && Unchanged(f, o) && !Confused(f, req, now, env) ==>
           o.ok && o.fd == f.fd && NewFd(q, env) == NO_FILE)
      && (f.fd != NO_FILE && Unchanged(f, o) && Confused(f, req, now, env) ==> o.ok && o.fd == NewFd(q, env) != NO_FILE)
      && (f.fd == NO_FILE ==> o.fd == NewFd(q, env))
  {
  }

  lemma UpdateInPlace(t: State, u: State, i: Id, o: Outcome, req: Request, now: int, env: Env, key: Key)
    requires Asked(t, u, i, o, req, now, env) && t.cached[i] == key
    requires t.files[i].isDir || t.files[i].err != 0 || Unchanged(t.files[i], o)
    ensures Settled(t, Renewed(u, i, o, req, now), t.files[i], key, o, req, now, env)
  {
    var f, q := t.files[i], QueryFor(t.files[i], req);
    assert RecordOk(t, i);
    AnswerFds(f, req, now, env);
    Probed(t, q, env, {i});
    if f.fd == NO_FILE {
      assert u.(open := u.open - Of(NO_FILE)) == u;
      Refreshed(u, i, o, req, now, key);
    } else if Confused(f, req, now, env) {
      LosesFd(t, u, i, o, req, now, f.fd);
    } else {
      assert u == t;
      var g := Updated(f, o, req.sym, now);
      Touched(t, i, g, {i}, {});
      ServedHands(Put(t, i, g), i, true, now, key);
    }
  }

  /** The old descriptor stays open and no record has it. */
  lemma LosesFd(t: State, u: State, i: Id, o: Outcome, req: Request, now: int, fd: Fd)
    requires Inv(t, {i}, {}) && i in t.files && t.files[i].fd == fd != NO_FILE && o.fd != fd && u.files == t.files &&
             t.open <= u.open
    ensures !Good(Renewed(u, i, o, req, now))
  {
    var s' := Renewed(u, i, o, req, now);
    assert RecordOk(t, i);
    forall j ensures !Owns(s', j, fd) { assert Apart(t, i, j); }
    NotGood(s', i, i, fd);
  }

  lemma UpdateAfterClose(t: State, u: State, i: Id, o: Outcome, req: Request, now: int, env: Env, key: Key)
    requires Asked(t, u, i, o, req, now, env) && t.cached[i] == key && t.files[i].count == 0
    requires !t.files[i].isDir && t.files[i].err == 0 && !Unchanged(t.files[i], o)
    ensures t.files[i].fd in u.open
    ensures Settled(t, Renewed(u.(open := u.open - Of(t.files[i].fd)), i, o, req, now), t.files[i], key, o, req, now,
              env)
  {
    var f, q := t.files[i], QueryFor(t.files[i], req);
    assert RecordOk(t, i);
    AnswerFds(f, req, now, env);
    Probed(t, q, env, {i});
    if Confused(f, req, now, env) {
      var s' := Renewed(u.(open := u.open - Of(f.fd)), i, o, req, now);
      assert Owns(s', i, f.fd);
      NotGood(s', i, i, f.fd);
    } else {
      Refreshed(u, i, o, req, now, key);
    }
  }

  lemma ReplaceInUse(t: State, u: State, i: Id, o: Outcome, req: Request, now: int, env: Env, key: Key)
    requires Asked(t, u, i, o, req, now, env) && t.cached[i] == key && t.files[i].count > 0
    requires !t.files[i].isDir && t.files[i].err == 0 && !Unchanged(t.files[i], o)
    ensures var sound := !Confused(t.files[i], req, now, env);
      && Inv(Detach(u, i), {}, if sound then Of(o.fd) else {})
      && (if sound then Proper(o) else Stale(Detach(u, i), i, o.fd))
    ensures key !in Detach(u, i).cached.Values
  {
    var f, q := t.files[i], QueryFor(t.files[i], req);
    assert RecordOk(t, i);
    AnswerFds(f, req, now, env);
    Probed(t, q, env, {i});
    Detached(u, i, Of(NewFd(q, env)));
    forall j | j in t.cached && j != i ensures t.cached[j] != key { assert NamesDiffer(t, i, j); }
    assert Owns(Detach(u, i), i, f.fd);
  }

  // ----- one request after another -----

  /** The answer o, got at the time at with the symlink setting sym, is cached as record i. */
  ghost predicate Remembers(s: State, i: Id, key: Key, o: Outcome, at: int, sym: nat) {
    && Named(s, i, key)
    && var f := s.files[i];
      && f.fd == o.fd && f.err == o.err && f.created == at && f.sym == sym
      && (if o.ok then o.err == 0 && f.uniq == o.uniq && f.isDir == o.isDir && (o.fd == NO_FILE <==> o.isDir)
          else o.err != 0 && o.fd == NO_FILE && !o.isDir)
  }

  /** The record may not answer: it is too old, of another file or setting, or its descriptor was closed. */
  ghost predicate Outdated(f: File, req: Request, now: int) {
    || now - f.created >= req.valid || (req.uniq != 0 && req.uniq != f.uniq) || req.sym != f.sym
    || (f.fd == NO_FILE && f.err == 0 && !f.isDir)
  }

  ghost predicate RecordedAnew(s: State, s': State, i: Id, key: Key, o: Outcome, req: Request, now: int) {
    && Remembers(s', i, key, o, now, req.sym)
    && s'.files[i].uses == if Named(s, i, key) then (s.files[i].uses + 1) % 0x1_0000_0000 else 1
  }

  /** An answer of the file system is cached if it is a success, or an error the caller wants cached. */
  lemma AnswerIsCached(s: State, s': State, key: Key, o: Outcome, req: Request, now: int, env: Env, alloc: bool, id: Id)
    requires Good(s) && Good(s') && Concluded(s, s', key, o, req, now, env, alloc, id) && id !in s.files
    requires EnvOk(env, s.open) && forall i :: Named(s, i, key) ==> Outdated(s.files[i], req, now)
    ensures o.ok ==> key in s'.cached.Values
    ensures !o.ok && (o.err == 0 || !req.errors) ==> key !in s'.cached.Values
    ensures alloc && !o.ok && o.err != 0 && req.errors ==> key in s'.cached.Values
    ensures key in s'.cached.Values ==> exists i :: RecordedAnew(s, s', i, key, o, req, now)
  {
    if key in s.cached.Values {
      var i :| i in s.cached && s.cached[i] == key;
      NameIsUnique(s, key, i);
      assert Named(s, i, key) && Updates(UsedOnce(s.files[i]), s', i, key, o, req, now, env, alloc, id);
      FoundIsCached(s, s', i, key, o, req, now, env, alloc, id);
    } else {
      MissingIsCached(s, s', key, o, req, now, env, alloc, id);
    }
  }

  lemma FoundIsCached(s: State, s': State, i: Id, key: Key, o: Outcome, req: Request, now: int, env: Env, alloc: bool,
                      id: Id)
    requires Good(s) && Good(s') && Handed(s, s', key, o.ok && !o.isDir, o.fd) && id !in s.files && Named(s, i, key)
    requires EnvOk(env, s.open) && Outdated(s.files[i], req, now)
    requires Updates(UsedOnce(s.files[i]), s', i, key, o, req, now, env, alloc, id)
    ensures o.ok ==> key in s'.cached.Values
    ensures !o.ok && (o.err == 0 || !req.errors) ==> key !in s'.cached.Values
    ensures alloc && !o.ok && o.err != 0 && req.errors ==> key in s'.cached.Values
    ensures key in s'.cached.Values ==> exists i :: RecordedAnew(s, s', i, key, o, req, now)
  {
    var f := UsedOnce(s.files[i]);
    var anew := Anew(f, req, env);
    if !Refused(o, req) && !(anew && !alloc) {
      var j := if anew then id else i;
      CarriedIs(s, s', j, key, o, req, now, if anew then 1 else f.uses);
      assert RecordedAnew(s, s', j, key, o, req, now);
    }
  }

  lemma MissingIsCached(s: State, s': State, key: Key, o: Outcome, req: Request, now: int, env: Env, alloc: bool,
                        id: Id)
    requires Good(s) && Good(s') && Handed(s, s', key, o.ok && !o.isDir, o.fd) && id !in s.files
    requires EnvOk(env, s.open) && key !in s.cached.Values && Discovers(s', key, o, req, now, env, alloc, id)
    ensures o.ok ==> key in s'.cached.Values
    ensures !o.ok && (o.err == 0 || !req.errors) ==> key !in s'.cached.Values
    ensures alloc && !o.ok && o.err != 0 && req.errors ==> key in s'.cached.Values
    ensures key in s'.cached.Values ==> exists i :: RecordedAnew(s, s', i, key, o, req, now)
  {
    if !Refused(o, req) && alloc {
      CarriedIs(s, s', id, key, o, req, now, 1);
      assert RecordedAnew(s, s', id, key, o, req, now);
    }
  }

  lemma CarriedIs(s: State, s': State, i: Id, key: Key, o: Outcome, req: Request, now: int, uses: nat)
    requires Good(s') && Carries(s', i, key, o, req, now, uses) && Handed(s, s', key, o.ok && !o.isDir, o.fd)
    requires (o.ok <==> o.err == 0) && (!o.ok ==> !o.isDir)
    ensures Remembers(s', i, key, o, now, req.sym) && key in s'.cached.Values
  {
    assert RecordOk(s', i) && FdOk(s', {}, o.fd);
  }

  /** A cached answer is given again, whatever the file system says by then, and stays cached. */
  lemma AnsweredAlike(s: State, s': State, i: Id, key: Key, o: Outcome, at: int, o': Outcome, req: Request, now: int,
                      env: Env, alloc: bool, id: Id)
    requires Remembers(s, i, key, o, at, req.sym) && Concluded(s, s', key, o', req, now, env, alloc, id)
    requires now - at < req.valid && (req.uniq == 0 || (o.ok && req.uniq == o.uniq))
    ensures o'.ok == o.ok && o'.err == o.err && o'.fd == o.fd && o'.isDir == o.isDir && (o.ok ==> o'.uniq == o.uniq)
    ensures Remembers(s', i, key, o, at, req.sym) && s'.files[i].uses == (s.files[i].uses + 1) % 0x1_0000_0000
  {
    assert Updates(UsedOnce(s.files[i]), s', i, key, o', req, now, env, alloc, id);
  }

  /** Two requests: what the first one was told by the file system and cached is what the second one is told. */
  lemma SecondAnswer(s: State, s1: State, s2: State, key: Key, o1: Outcome, req1: Request, now1: int, env1: Env,
                     alloc1: bool, id1: Id, o2: Outcome, req2: Request, now2: int, env2: Env, alloc2: bool, id2: Id)
    requires Good(s) && EnvOk(env1, s.open) && id1 !in s.files
    requires forall i :: Named(s, i, key) ==> Outdated(s.files[i], req1, now1)
    requires Concluded(s, s1, key, o1, req1, now1, env1, alloc1, id1) && Good(s1) && key in s1.cached.Values
    requires Concluded(s1, s2, key, o2, req2, now2, env2, alloc2, id2)
    requires now2 - now1 < req2.valid && req2.sym == req1.sym && (req2.uniq == 0 || (o1.ok && req2.uniq == o1.uniq))
    ensures o2.ok == o1.ok && o2.err == o1.err && o2.fd == o1.fd && o2.isDir == o1.isDir
    ensures o1.ok ==> o2.uniq == o1.uniq
    ensures o1.ok && !o1.isDir ==> o1.fd in s2.open
  {
    AnswerIsCached(s, s1, key, o1, req1, now1, env1, alloc1, id1);
    var i :| RecordedAnew(s, s1, i, key, o1, req1, now1);
    AnsweredAlike(s1, s2, i, key, o1, now1, o2, req2, now2, env2, alloc2, id2);
    NotMisled(s1, i, key, req2, now2, env2);
  }

  lemma NotMisled(s: State, i: Id, key: Key, req: Request, now: int, env: Env)
    requires Good(s) && Named(s, i, key) && !Outdated(s.files[i], req, now)
    ensures !Misled(s, key, req, now, env)
  {
    NameIsUnique(s, key, i);
  }

  /** What opening the file and looking at it says. */
  ghost predicate SaidByOpening(o: Outcome, env: Env) {
    if env.open.NoFile? then !o.ok && o.err == env.open.err
    else if env.fstat.Fail? then !o.ok && o.err == 0
    else
      && o.ok && o.err == 0 && o.uniq == env.fstat.uniq && o.isDir == env.fstat.isDir
      && o.fd == if o.isDir then NO_FILE else env.open.fd
  }

  /** What the file system says of a name with no open file: a caller that only tests for a directory need not open. */
  ghost predicate SaidOfName(o: Outcome, test: bool, env: Env) {
    if test && env.stat.Fail? then !o.ok && o.err == env.stat.err
    else if test && env.stat.isDir then o.ok && o.err == 0 && o.isDir && o.fd == NO_FILE && o.uniq == env.stat.uniq
    else SaidByOpening(o, env)
  }

  /** What it says of a name under which the file uniq is open as fd: the file is opened again only if it is another. */
  ghost predicate SaidOfFile(o: Outcome, fd: Fd, uniq: nat, env: Env) {
    if env.stat.Fail? then !o.ok && o.err == env.stat.err
    else if env.stat.uniq == uniq then o.ok && o.err == 0 && o.fd == fd && o.uniq == uniq && o.isDir == env.stat.isDir
    else SaidByOpening(o, env)
  }

  /** What it says of a name with record f. */
  ghost predicate SaidAgain(o: Outcome, f: File, req: Request, env: Env) {
    if f.fd != NO_FILE then SaidOfFile(o, f.fd, f.uniq, env) else SaidOfName(o, req.testDir || f.isDir, env)
  }

  lemma AskedOfRecord(f: File, s': State, i: Id, key: Key, o: Outcome, req: Request, now: int, env: Env, alloc: bool,
                      id: Id)
    requires Updates(f, s', i, key, o, req, now, env, alloc, id) && Outdated(f, req, now)
    ensures SaidAgain(o, f, req, env) || (!alloc && !o.ok && f.count > 0 && key !in s'.cached.Values)
  {
    assert Asks(f, s', i, key, o, req, now, env, alloc, id);
    if !(Anew(f, req, env) && !alloc) { AnswerSays(f, req, env); }
  }

  lemma AnswerSays(f: File, req: Request, env: Env)
    ensures SaidAgain(Answer(QueryFor(f, req), env), f, req, env)
  {
    if f.fd == NO_FILE && !Shut(f) { assert QueryFor(f, req) == Query(NO_FILE, f.uniq, req.testDir || f.isDir); }
  }

  /** Without a record that may answer, the file system does; only the memory for a new record can be missing. */
  lemma AskedAfresh(s: State, s': State, key: Key, o: Outcome, req: Request, now: int, env: Env, alloc: bool, id: Id)
    requires Concluded(s, s', key, o, req, now, env, alloc, id)
    ensures key !in s.cached.Values ==> SaidOfName(o, req.testDir, env) || (!alloc && !o.ok && key !in s'.cached.Values)
    ensures forall i :: Named(s, i, key) && Outdated(s.files[i], req, now) ==>
      SaidAgain(o, s.files[i], req, env) || (!alloc && !o.ok && s.files[i].count > 0 && key !in s'.cached.Values)
  {
    if key !in s.cached.Values { MissingIsAsked(s', key, o, req, now, env, alloc, id); }
    forall i | Named(s, i, key) && Outdated(s.files[i], req, now)
      ensures SaidAgain(o, s.files[i], req, env) ||
              (!alloc && !o.ok && s.files[i].count > 0 && key !in s'.cached.Values)
    {
      AskedOfRecord(UsedOnce(s.files[i]), s', i, key, o, req, now, env, alloc, id);
    }
  }

  lemma MissingIsAsked(s': State, key: Key, o: Outcome, req: Request, now: int, env: Env, alloc: bool, id: Id)
    requires Discovers(s', key, o, req, now, env, alloc, id)
    ensures SaidOfName(o, req.testDir, env) || (!alloc && !o.ok && key !in s'.cached.Values)
  {
  }

  /** A request for one name leaves what is cached of another, unless the cache is full and it goes to make room. */
  lemma OthersRemembered(s: State, s': State, key: Key, req: Request, now: int, env: Env, id: Id, max: nat,
                         inactive: int, i: Id, other: Key, o: Outcome, at: int, sym: nat)
    requires Good(s) && s.current <= max && id !in s.files && Crowds(s, s', key, req, now, env, id, max, inactive)
    requires Remembers(s, i, other, o, at, sym) && other != key
    ensures i in s'.cached ==> Remembers(s', i, other, o, at, sym) && s'.files[i] == s.files[i]
    ensures i !in s'.cached ==> s.current == max && key !in s.cached.Values
    ensures i !in s'.cached && now - s.files[i].accessed <= inactive ==> s.queue != [] && i == Last(s.queue)
  {
    if key in s.cached.Values {
      var j :| j in s.cached && s.cached[j] == key;
      NameIsUnique(s, key, j);
      assert Named(s, j, key);
      BystanderStays(s, s', {j, id}, NeedsRoom(s.files[j], req, now, env) && s.current > max, now, inactive, i);
    } else {
      BystanderStays(s, s', {id}, !Refused(Answer(NewQuery(req), env), req) && s.current >= max, now, inactive, i);
      assert EntryOk(s, id);
      assert forall j :: j in s.queue ==> j in s.cached;
      WithoutOthers(s.queue, {id});
    }
  }

  // ----- a file system that contradicts itself -----

  lemma OneRecord(s: State, i: Id, fd: Fd)
    requires Good(s) && s.current <= 1 && i in s.cached && s.holders == multiset{(i, fd)}
    ensures s.files.Keys == {i} == s.cached.Keys
  {
    NothingLost(s);
    assert EntryOk(s, i);
    forall j | j in s.cached ensures j == i {
      assert {i, j} <= s.cached.Keys;
      AtMost({i, j}, s.cached.Keys);
    }
  }

  lemma AtMost(a: set<Id>, b: set<Id>)
    requires a <= b
    ensures |a| <= |b|
  {
    assert b == a + (b - a);
  }

  /** A regular file was opened under the name; a minute later stat calls the same inode a directory. */
  function FirstSight(): Env { Env(Info(7, false), Opening.Opened(3), Info(7, false)) }

  function SecondSight(): Env { Env(Info(7, true), NoFile(2), Fail(0)) }

  function Plain(): Request { Request(0, 60, 1, false, false, 0) }

  /** After the first request the cache holds one record, which the second answer contradicts. */
  lemma SightsDiffer(s: State, s': State, key: Key, o: Outcome, id: Id)
    requires s == State(map[], map[], [], 0, {}, multiset{}) && s'.current <= 1
    requires Concluded(s, s', key, o, Plain(), 0, FirstSight(), true, id)
    ensures Good(s') && |s'.files| == 1 && (forall i :: i in s'.files ==> s'.files[i].count == 1)
    ensures Misled(s', key, Plain(), 60, SecondSight())
  {
    assert o == Outcome(true, 0, 3, 7, false);
    var i := id;
    assert Carries(s', i, key, o, Plain(), 0, 1);
    var j :| j in s'.cached && s'.cached[j] == key && s'.holders == s.holders + multiset{(j, 3)};
    assert NamesDiffer(s', i, j) && RecordOk(s', i);
    assert s.holders + multiset{(j, 3)} == multiset{(i, 3)};
    OneRecord(s', i, 3);
    assert |s'.files.Keys| == 1;
    assert Named(s', i, key) && Confused(s'.files[i], Plain(), 60, SecondSight());
  }

  /** The cache after the two requests: its invariant is lost. */
  method Contradicted(key: Key, junk: File) returns (c: OpenFileCache)
    ensures fresh(c) && c.index.Valid() && !Good(c.View())
  {
    c := new OpenFileCache(1, 60, 0);
    ghost var s := c.View();
    var o := c.Open(key, Plain(), 0, FirstSight(), 1, junk, true);
    ghost var s' := c.View();
    SightsDiffer(s, s', key, o, 1);
    OneId(s'.files.Keys);
    var id := if 1 in c.files then 2 else 1;
    o := c.Open(key, Plain(), 60, SecondSight(), id, junk, true);
  }

  lemma OneId(a: set<Id>)
    requires |a| == 1
    ensures 1 in a ==> 2 !in a
  {
    if 1 in a && 2 in a { AtMost({1, 2}, a); }
  }
}
