/**
 The reference-counted per-key lock around applying channel metadata, with its rollback
 (internal/app/channelcluster.go:87-140, 275-304), as a state machine. A step is one critical
 section of the lock table, one mutex operation, or one call into the service or the runtime.
 */
module ApplyLock {
  import opened Options

  type ChannelKey = nat

  datatype Meta = Meta(key: ChannelKey, deleted: bool, body: nat)

  /** A lock object; objects are never reused, only dropped from the table. */
  datatype Lock = Lock(refs: int, holder: Option<nat>)

  /** Where a thread is in one ApplyMeta; `previous` is the snapshot it took. */
  datatype Point =
    | Waiting
    | Holding
    | Snapped(previous: Option<Meta>)
    | Applied(previous: Option<Meta>)
    | Restoring(previous: Option<Meta>)
    | Unlocking
    | Releasing
  {
    predicate Holds() {
      !Waiting? && !Releasing?
    }
  }

  datatype Thread = Thread(meta: Meta, lock: nat, at: Point)

  datatype State = State(
    table: map<ChannelKey, nat>,
    locks: seq<Lock>,
    threads: map<nat, Thread>,
    metas: map<ChannelKey, Meta>,
    active: set<ChannelKey>,
    log: seq<(ChannelKey, Meta)>)

  /** The outcomes of outside calls are part of the step: what the service stores, whether the runtime fails. */
  datatype Step =
    | Enter(t: nat, meta: Meta)
    | Acquire(t: nat)
    | Snapshot(t: nat)
    | ServiceApply(t: nat, stored: Option<Meta>)
    | RuntimeStep(t: nat, ok: bool)
    | Restore(t: nat)
    | Unlock(t: nat)
    | Release(t: nat)

  function Init(): State {
    State(map[], [], map[], map[], {}, [])
  }

  function Lookup(metas: map<ChannelKey, Meta>, key: ChannelKey): Option<Meta> {
    if key in metas then Some(metas[key]) else None
  }

  function Store(metas: map<ChannelKey, Meta>, key: ChannelKey, meta: Option<Meta>): map<ChannelKey, Meta> {
    if meta.Some? then metas[key := meta.value] else metas - {key}
  }

  predicate At(s: State, t: nat) {
    t in s.threads && s.threads[t].lock < |s.locks|
  }

  function Move(s: State, t: nat, at: Point): State
    requires t in s.threads
  {
    s.(threads := s.threads[t := s.threads[t].(at := at)])
  }

  function SetLock(s: State, l: nat, lock: Lock): State
    requires l < |s.locks|
  {
    s.(locks := s.locks[l := lock])
  }

  /** A step that is not enabled changes nothing. */
  function Do(s: State, step: Step): State
    requires forall key :: key in s.table ==> s.table[key] < |s.locks|
  {
    match step
    case Enter(t, meta) =>
      if t in s.threads then s
      else if meta.key in s.table then
        var l := s.table[meta.key];
        SetLock(s, l, s.locks[l].(refs := s.locks[l].refs + 1)).(threads := s.threads[t := Thread(meta, l, Waiting)])
      else
        var l := |s.locks|;
        s.(table := s.table[meta.key := l], locks := s.locks + [Lock(1, None)],
          threads := s.threads[t := Thread(meta, l, Waiting)])
    case Acquire(t) =>
      if !(At(s, t) && s.threads[t].at.Waiting? && s.locks[s.threads[t].lock].holder.None?) then s
      else SetLock(Move(s, t, Holding), s.threads[t].lock, s.locks[s.threads[t].lock].(holder := Some(t)))
    case Snapshot(t) =>
      if !(At(s, t) && s.threads[t].at.Holding?) then s
      else Move(s, t, Snapped(Lookup(s.metas, s.threads[t].meta.key)))
    case ServiceApply(t, stored) =>
      if !(At(s, t) && s.threads[t].at.Snapped?) then s
      else if stored.None? then Move(s, t, Unlocking)
      else Move(s, t, Applied(s.threads[t].at.previous)).(metas := s.metas[s.threads[t].meta.key := stored.value])
    case RuntimeStep(t, ok) =>
      if !(At(s, t) && s.threads[t].at.Applied?) then s
      else RuntimeDone(s, t, ok)
    case Restore(t) =>
      if !(At(s, t) && s.threads[t].at.Restoring?) then s
      else Move(s, t, Unlocking).(metas := Store(s.metas, s.threads[t].meta.key, s.threads[t].at.previous))
    case Unlock(t) =>
      if !(At(s, t) && s.threads[t].at.Unlocking?) then s
      else SetLock(Move(s, t, Releasing), s.threads[t].lock, s.locks[s.threads[t].lock].(holder := None))
    case Release(t) =>
      if !(At(s, t) && s.threads[t].at.Releasing?) then s
      else
        var l := s.threads[t].lock;
        var lock := s.locks[l].(refs := s.locks[l].refs - 1);
        SetLock(s, l, lock).(threads := s.threads - {t}, table :=
          if lock.refs == 0 then s.table - {s.threads[t].meta.key} else s.table)
  }

  /** Removing a local runtime clears the active mark even when it fails; creating one sets it only when it succeeds. */
  function RuntimeDone(s: State, t: nat, ok: bool): State
    requires t in s.threads && s.threads[t].at.Applied?
  {
    var thread := s.threads[t];
    var key := thread.meta.key;
    var s' := s.(active := if thread.meta.deleted then s.active - {key} else if ok then s.active + {key} else s.active);
    if !ok then Move(s', t, Restoring(thread.at.previous))
    else Move(s', t, Unlocking).(log := if key in s.metas then s.log + [(key, s.metas[key])] else s.log)
  }

  // ---------------------------------------------------------------- the lock

  function Users(threads: map<nat, Thread>, l: nat): set<nat> {
    set t | t in threads && threads[t].lock == l
  }

  /** All live threads of a key share the lock object that the table has for it, and that object is the key's alone. */
  ghost predicate SharedLocks(s: State) {
    && (forall key :: key in s.table ==> s.table[key] < |s.locks|)
    && (forall t ::
      t in s.threads ==> s.threads[t].meta.key in s.table && s.table[s.threads[t].meta.key] == s.threads[t].lock)
    && (forall k1, k2 :: k1 in s.table && k2 in s.table && s.table[k1] == s.table[k2] ==> k1 == k2)
  }

  /** The reference count of a lock is the number of threads that wait for it, hold it or are letting go of it. */
  ghost predicate CountedRefs(s: State) {
    && (forall l: nat | l < |s.locks| :: s.locks[l].refs == |Users(s.threads, l)|)
    && (forall key :: key in s.table ==> s.table[key] < |s.locks| && s.locks[s.table[key]].refs > 0)
  }

  ghost predicate HeldByHolder(s: State) {
    && (forall t ::
      t in s.threads && s.threads[t].at.Holds() ==>
        s.threads[t].lock < |s.locks| && s.locks[s.threads[t].lock].holder == Some(t))
    && (forall l: nat | l < |s.locks| && s.locks[l].holder.Some? ::
          var t := s.locks[l].holder.value; t in s.threads && s.threads[t].lock == l && s.threads[t].at.Holds())
  }

  ghost predicate LockInv(s: State) {
    SharedLocks(s) && CountedRefs(s) && HeldByHolder(s)
  }

  lemma UsersJoin(threads: map<nat, Thread>, t: nat, thread: Thread)
    requires t !in threads
    ensures forall l ::
      Users(threads[t := thread], l) == if l == thread.lock then Users(threads, l) + {t} else Users(threads, l)
    ensures t !in Users(threads, thread.lock)
  {
  }

  lemma UsersLeave(threads: map<nat, Thread>, t: nat)
    requires t in threads
    ensures forall l ::
      Users(threads - {t}, l) == if l == threads[t].lock then Users(threads, l) - {t} else Users(threads, l)
    ensures t in Users(threads, threads[t].lock)
  {
  }

  lemma UsersMove(threads: map<nat, Thread>, t: nat, at: Point)
    requires t in threads
    ensures forall l :: Users(threads[t := threads[t].(at := at)], l) == Users(threads, l)
  {
    forall l ensures Users(threads[t := threads[t].(at := at)], l) == Users(threads, l) {
    }
  }

  lemma NoUsers(s: State, l: nat)
    requires SharedLocks(s) && l == |s.locks|
    ensures Users(s.threads, l) == {}
  {
  }

  // A thread enters and waits; its lock is the table's, or a new one.

  /** Nobody else waits for, holds or knows the lock that a new key gets. */
  ghost predicate Entered(s: State, s': State, t: nat, thread: Thread) {
    && t !in s.threads && s'.threads == s.threads[t := thread] && thread.at.Waiting?
    && |s.locks| <= |s'.locks| && thread.lock < |s'.locks|
    && (forall l: nat | l < |s.locks| ::
          s'.locks[l].holder == s.locks[l].holder && s'.locks[l].refs == s.locks[l].refs +
            if l == thread.lock then 1 else 0)
    && (if thread.meta.key in s.table then
          s'.table == s.table && |s'.locks| == |s.locks| && thread.lock == s.table[thread.meta.key]
        else
          && s'.table == s.table[thread.meta.key := |s.locks|] && |s'.locks| == |s.locks| + 1
          && thread.lock == |s.locks| && s'.locks[|s.locks|] == Lock(1, None))
  }

  lemma EnteredShared(s: State, s': State, t: nat, thread: Thread)
    requires SharedLocks(s) && Entered(s, s', t, thread)
    ensures SharedLocks(s')
  {
    forall k1, k2 | k1 in s'.table && k2 in s'.table && s'.table[k1] == s'.table[k2] ensures k1 == k2 {
      assert k1 in s.table ==> s.table[k1] < |s.locks|;
      assert k2 in s.table ==> s.table[k2] < |s.locks|;
    }
    forall u | u in s'.threads ensures s'.threads[u].meta.key in s'.table
      && s'.table[s'.threads[u].meta.key] == s'.threads[u].lock {
      assert u == t || u in s.threads;
    }
  }

  /** Whoever enters is counted at its own lock. */
  lemma EnteredRefs(s: State, s': State, t: nat, thread: Thread)
    requires SharedLocks(s) && CountedRefs(s) && Entered(s, s', t, thread)
    ensures forall l: nat | l < |s'.locks| :: s'.locks[l].refs == |Users(s'.threads, l)|
  {
    NoUsers(s, |s.locks|);
    hide SharedLocks;
    UsersJoin(s.threads, t, thread);
    hide Users;
  }

  lemma EnteredPositive(s: State, s': State, t: nat, thread: Thread, key: ChannelKey)
    requires SharedLocks(s) && CountedRefs(s) && Entered(s, s', t, thread) && key in s'.table
    ensures s'.table[key] < |s'.locks| && s'.locks[s'.table[key]].refs > 0
  {
    hide Users;
    if key in s.table {
      assert s.table[key] < |s.locks| && s.locks[s.table[key]].refs > 0;
    } else {
      assert s'.table[key] == |s.locks|;
    }
  }

  lemma EnteredCounts(s: State, s': State, t: nat, thread: Thread)
    requires SharedLocks(s) && CountedRefs(s) && Entered(s, s', t, thread)
    ensures CountedRefs(s')
  {
    EnteredRefs(s, s', t, thread);
    hide SharedLocks, Users, Entered;
    forall key | key in s'.table ensures s'.table[key] < |s'.locks| && s'.locks[s'.table[key]].refs > 0 {
      EnteredPositive(s, s', t, thread, key);
    }
  }

  lemma EnteredHolders(s: State, s': State, t: nat, thread: Thread)
    requires HeldByHolder(s) && Entered(s, s', t, thread)
    ensures HeldByHolder(s')
  {
  }

  lemma EnterKeepsLocks(s: State, t: nat, meta: Meta)
    requires LockInv(s) && t !in s.threads
    ensures LockInv(Do(s, Enter(t, meta)))
  {
    var s' := Do(s, Enter(t, meta));
    hide CountedRefs, HeldByHolder;
    assert Entered(s, s', t, s'.threads[t]);
    hide Do, Entered;
    EnteredShared(s, s', t, s'.threads[t]);
    EnteredCounts(s, s', t, s'.threads[t]);
    EnteredHolders(s, s', t, s'.threads[t]);
  }

  // A thread leaves; the last user of a lock takes the key out of the table.

  ghost predicate Left(s: State, s': State, t: nat) {
    && t in s.threads && s'.threads == s.threads - {t} && s.threads[t].at.Releasing?
    && s.threads[t].lock < |s.locks| == |s'.locks|
    && (forall l: nat | l < |s.locks| ::
          s'.locks[l].holder == s.locks[l].holder && s'.locks[l].refs == s.locks[l].refs -
            if l == s.threads[t].lock then 1 else 0)
    && s'.table == if s'.locks[s.threads[t].lock].refs == 0 then s.table - {s.threads[t].meta.key} else s.table
  }

  lemma LeftCounts(s: State, s': State, t: nat)
    requires CountedRefs(s) && Left(s, s', t)
    ensures forall l: nat | l < |s'.locks| :: s'.locks[l].refs == |Users(s'.threads, l)|
  {
    UsersLeave(s.threads, t);
    hide Users;
    forall l: nat | l < |s'.locks| ensures s'.locks[l].refs == |Users(s'.threads, l)| {
      assert s.locks[l].refs == |Users(s.threads, l)|;
    }
  }

  lemma LeftPositive(s: State, s': State, t: nat)
    requires SharedLocks(s) && CountedRefs(s) && Left(s, s', t)
    requires forall l: nat | l < |s'.locks| :: s'.locks[l].refs == |Users(s'.threads, l)|
    ensures CountedRefs(s')
  {
    hide Users;
    forall key | key in s'.table ensures s'.table[key] < |s'.locks| && s'.locks[s'.table[key]].refs > 0 {
      assert s.locks[s.table[key]].refs > 0;
      assert s.table[s.threads[t].meta.key] == s.threads[t].lock;
    }
  }

  lemma UnusedLock(threads: map<nat, Thread>, l: nat)
    requires |Users(threads, l)| == 0
    ensures forall u :: u in threads ==> threads[u].lock != l
  {
    assert Users(threads, l) == {};
    forall u | u in threads ensures threads[u].lock != l {
      assert u !in Users(threads, l);
    }
  }

  lemma LeftShared(s: State, s': State, t: nat)
    requires SharedLocks(s) && Left(s, s', t)
    requires forall l: nat | l < |s'.locks| :: s'.locks[l].refs == |Users(s'.threads, l)|
    ensures SharedLocks(s')
  {
    var l := s.threads[t].lock;
    if s'.locks[l].refs == 0 {
      UnusedLock(s'.threads, l);
    }
    hide Users;
    forall u | u in s'.threads ensures s'.threads[u].meta.key in s'.table
      && s'.table[s'.threads[u].meta.key] == s'.threads[u].lock {
      assert u in s.threads;
    }
  }

  lemma LeftHolders(s: State, s': State, t: nat)
    requires HeldByHolder(s) && Left(s, s', t)
    ensures HeldByHolder(s')
  {
  }

  lemma ReleaseKeepsLocks(s: State, t: nat)
    requires LockInv(s) && t in s.threads && s.threads[t].at.Releasing?
    ensures LockInv(Do(s, Release(t)))
  {
    var s' := Do(s, Release(t));
    LockInRange(s, t);
    hide CountedRefs, HeldByHolder, Users;
    assert Left(s, s', t);
    hide Do, Left;
    LeftCounts(s, s', t);
    LeftPositive(s, s', t);
    LeftShared(s, s', t);
    LeftHolders(s, s', t);
  }

  // A thread that is inside moves on.

  ghost predicate Moved(s: State, s': State, t: nat) {
    && t in s.threads && t in s'.threads && s'.threads == s.threads[t := s.threads[t].(at := s'.threads[t].at)]
    && s'.table == s.table && |s'.locks| == |s.locks|
    && forall l: nat | l < |s.locks| :: s'.locks[l].refs == s.locks[l].refs
  }

  lemma MovedShared(s: State, s': State, t: nat)
    requires SharedLocks(s) && Moved(s, s', t)
    ensures SharedLocks(s')
  {
    forall u | u in s'.threads
      ensures s'.threads[u].meta.key in s'.table && s'.table[s'.threads[u].meta.key] == s'.threads[u].lock
    {
      assert u in s.threads;
    }
  }

  lemma MovedCounts(s: State, s': State, t: nat)
    requires CountedRefs(s) && Moved(s, s', t)
    ensures CountedRefs(s')
  {
    UsersMove(s.threads, t, s'.threads[t].at);
    hide Users;
  }

  /** The lock's holder changes exactly as the thread starts or stops to hold it. */
  lemma MovedHolders(s: State, s': State, t: nat)
    requires HeldByHolder(s) && Moved(s, s', t) && s.threads[t].lock < |s.locks|
    requires forall l: nat | l < |s.locks| && l != s.threads[t].lock :: s'.locks[l] == s.locks[l]
    requires
      var before, after := s.locks[s.threads[t].lock].holder, s'.locks[s.threads[t].lock].holder;
      if s'.threads[t].at.Holds() then after == Some(t) && (before == Some(t) || before.None?)
      else before == Some(t) && after.None?
    ensures HeldByHolder(s')
  {
    forall u | u in s'.threads && s'.threads[u].at.Holds()
      ensures s'.threads[u].lock < |s'.locks| && s'.locks[s'.threads[u].lock].holder == Some(u)
    {
      if u != t {
        assert s.locks[s.threads[u].lock].holder == Some(u);
      }
    }
  }

  lemma StepKeepsLocks(s: State, step: Step)
    requires LockInv(s)
    ensures LockInv(Do(s, step))
  {
    hide CountedRefs;
    match step {
      case Enter(t, meta) =>
        if t !in s.threads {
          EnterKeepsLocks(s, t, meta);
        }
      case Release(t) =>
        if t in s.threads && s.threads[t].at.Releasing? {
          ReleaseKeepsLocks(s, t);
        }
      case _ =>
        MoveKeepsLocks(s, step);
    }
  }

  /** What a step inside does to the thread and to the holder of its lock. */
  lemma MoveShape(s: State, step: Step)
    requires !step.Enter? && !step.Release? && (forall key :: key in s.table ==> s.table[key] < |s.locks|)
      && Do(s, step) != s
    ensures Moved(s, Do(s, step), step.t) && s.threads[step.t].lock < |s.locks|
    ensures var l := s.threads[step.t].lock; var s' := Do(s, step);
      && (forall k: nat | k < |s.locks| && k != l :: s'.locks[k] == s.locks[k])
      && (if step.Acquire? then s'.locks[l].holder == Some(step.t) && s.locks[l].holder.None?
        && s'.threads[step.t].at.Holds()
          else if step.Unlock? then s'.locks[l].holder.None? && s.threads[step.t].at.Holds()
            && !s'.threads[step.t].at.Holds()
          else s'.locks[l].holder == s.locks[l].holder && s.threads[step.t].at.Holds() && s'.threads[step.t].at.Holds())
  {
  }

  lemma MoveKeepsLocks(s: State, step: Step)
    requires LockInv(s) && !step.Enter? && !step.Release?
    ensures LockInv(Do(s, step))
  {
    var s', t := Do(s, step), step.t;
    if s' != s {
      MoveShape(s, step);
      hide Do, Moved;
      assert s.threads[t].at.Holds() ==> s.locks[s.threads[t].lock].holder == Some(t);
      hide *;
      MovedShared(s, s', t);
      MovedCounts(s, s', t);
      MovedHolders(s, s', t);
      LockInvParts(s');
    }
  }

  lemma LockInvParts(s: State)
    requires SharedLocks(s) && CountedRefs(s) && HeldByHolder(s)
    ensures LockInv(s)
  {
  }

  // ---------------------------------------------------------------- the metadata

  /** The meta that the last successful apply of the key left. */
  function LastApplied(log: seq<(ChannelKey, Meta)>, key: ChannelKey): Option<Meta>
    decreases |log|
  {
    if log == [] then None
    else if log[|log| - 1].0 == key then Some(log[|log| - 1].1)
    else LastApplied(log[..|log| - 1], key)
  }

  /** The thread has written the key's meta and neither confirmed nor undone it. */
  predicate MidApply(s: State, t: nat) {
    t in s.threads && (s.threads[t].at.Applied? || s.threads[t].at.Restoring?)
  }

  /** Snapshots are the last applied metas, and so is every meta that no thread is in the middle of writing. */
  ghost predicate MetaInv(s: State) {
    && (forall t :: t in s.threads && (s.threads[t].at.Snapped? || MidApply(s, t)) ==>
          s.threads[t].at.previous == LastApplied(s.log, s.threads[t].meta.key))
    && (forall t :: MidApply(s, t) ==> s.threads[t].meta.key in s.metas)
    && (forall key ::
      (forall t :: MidApply(s, t) ==> s.threads[t].meta.key != key) ==> Lookup(s.metas, key) == LastApplied(s.log, key))
  }

  /** Mutual exclusion: at most one thread holds the lock of a key. */
  lemma MutualExclusion(s: State, t: nat, u: nat)
    requires LockInv(s)
    requires t in s.threads && u in s.threads && s.threads[t].at.Holds() && s.threads[u].at.Holds()
    requires s.threads[t].meta.key == s.threads[u].meta.key
    ensures t == u
  {
  }

  lemma LogSnoc(log: seq<(ChannelKey, Meta)>, key: ChannelKey, meta: Meta, other: ChannelKey)
    ensures LastApplied(log + [(key, meta)], other) == if other == key then Some(meta) else LastApplied(log, other)
  {
    assert (log + [(key, meta)])[..|log|] == log;
  }

  /** The lock's holder is the only thread in the middle of its key. */
  lemma HolderIsAlone(s: State, t: nat)
    requires LockInv(s) && t in s.threads && s.threads[t].at.Holds()
    ensures forall u ::
      u in s.threads && u != t && s.threads[u].at.Holds() ==> s.threads[u].meta.key != s.threads[t].meta.key
  {
  }

  /** What a step inside does to the thread, to the metas and to the log of successful applies. */
  lemma ApplyShape(s: State, step: Step)
    requires (forall key :: key in s.table ==> s.table[key] < |s.locks|) && !step.Enter? && At(s, step.t)
    ensures var s' := Do(s, step); var thread := s.threads[step.t];
      && (step.Snapshot? && thread.at.Holding? ==>
            s'.threads == s.threads[step.t := thread.(at := Snapped(Lookup(s.metas, thread.meta.key)))]
            && s'.metas == s.metas && s'.log == s.log)
      && (step.ServiceApply? && thread.at.Snapped? ==>
            s'.threads
              == s.threads[step.t :=
              thread.(at := if step.stored.None? then Unlocking else Applied(thread.at.previous))]
            && s'.metas == (if step.stored.None? then s.metas else s.metas[thread.meta.key := step.stored.value])
              && s'.log == s.log)
      && (step.RuntimeStep? && thread.at.Applied? ==>
            s'.threads
              == s.threads[step.t := thread.(at := if step.ok then Unlocking else Restoring(thread.at.previous))]
            && s'.metas == s.metas
            && s'.log ==
              if step.ok && thread.meta.key in s.metas then s.log + [(thread.meta.key, s.metas[thread.meta.key])]
                else s.log)
      && (step.Restore? && thread.at.Restoring? ==>
            s'.threads == s.threads[step.t := thread.(at := Unlocking)]
            && s'.metas == Store(s.metas, thread.meta.key, thread.at.previous) && s'.log == s.log)
  {
  }

  /** A step that writes no meta and ends no apply keeps the metas and their meaning. */
  lemma QuietKeepsMetas(s: State, s': State)
    requires MetaInv(s) && s'.metas == s.metas && s'.log == s.log
    requires forall t :: MidApply(s', t) ==> MidApply(s, t)
    requires forall t :: MidApply(s, t) ==>
      t in s'.threads && s'.threads[t].meta == s.threads[t].meta && MidApply(s', t)
        && s'.threads[t].at.previous == s.threads[t].at.previous
    requires forall t :: t in s'.threads && s'.threads[t].at.Snapped? ==>
      s'.threads[t].at.previous == LastApplied(s.log, s'.threads[t].meta.key)
    ensures MetaInv(s')
  {
    hide LastApplied;
    forall key | forall t :: MidApply(s', t) ==> s'.threads[t].meta.key != key
      ensures Lookup(s'.metas, key) == LastApplied(s'.log, key)
    {
      forall t | MidApply(s, t) ensures s.threads[t].meta.key != key {
        assert MidApply(s', t);
      }
    }
  }

  /** The thread that takes the snapshot is alone on its key, so the snapshot is what was last applied. */
  lemma SnapshotKeepsMetas(s: State, t: nat)
    requires LockInv(s) && MetaInv(s) && t in s.threads && s.threads[t].at.Holding?
    ensures MetaInv(Do(s, Snapshot(t)))
  {
    HolderIsQuiet(s, t);
    LockInRange(s, t);
    SnapshotsAreLast(s);
    hide SharedLocks, CountedRefs, HeldByHolder, LastApplied, MetaInv;
    ApplyShape(s, Snapshot(t));
    hide Do;
    QuietKeepsMetas(s, Do(s, Snapshot(t)));
  }

  /** The thread moves on inside, is alone on its key, and writes no other key. */
  ghost predicate OwnKeyOnly(s: State, s': State, t: nat) {
    && t in s.threads && t in s'.threads && s'.threads == s.threads[t := s.threads[t].(at := s'.threads[t].at)]
    && (forall u ::
      u in s.threads && u != t && s.threads[u].at.Holds() ==> s.threads[u].meta.key != s.threads[t].meta.key)
    && (forall key :: key != s.threads[t].meta.key ==> Lookup(s'.metas, key) == Lookup(s.metas, key))
    && (forall key :: key != s.threads[t].meta.key ==> LastApplied(s'.log, key) == LastApplied(s.log, key))
  }

  /** A step of the holder that writes only its own key keeps the meaning of every other key. */
  lemma HolderKeepsMetas(s: State, s': State, t: nat)
    requires MetaInv(s) && OwnKeyOnly(s, s', t) && !s'.threads[t].at.Snapped?
    requires MidApply(s', t) ==>
      s'.threads[t].at.previous == LastApplied(s'.log, s.threads[t].meta.key) && s.threads[t].meta.key in s'.metas
    requires !MidApply(s', t) ==> Lookup(s'.metas, s.threads[t].meta.key) == LastApplied(s'.log, s.threads[t].meta.key)
    ensures MetaInv(s')
  {
    hide LastApplied;
    forall u | MidApply(s', u) ensures s'.threads[u].meta.key in s'.metas {
      if u != t {
        assert MidApply(s, u);
        assert Lookup(s'.metas, s.threads[u].meta.key) == Lookup(s.metas, s.threads[u].meta.key);
      }
    }
    forall key | forall u :: MidApply(s', u) ==> s'.threads[u].meta.key != key
      ensures Lookup(s'.metas, key) == LastApplied(s'.log, key)
    {
      if key != s.threads[t].meta.key {
        forall u | MidApply(s, u) ensures s.threads[u].meta.key != key {
          assert u != t ==> MidApply(s', u);
        }
      }
    }
  }

  lemma ServiceApplyOwnKey(s: State, t: nat, stored: Option<Meta>)
    requires LockInv(s) && MetaInv(s) && t in s.threads && s.threads[t].at.Snapped?
    ensures OwnKeyOnly(s, Do(s, ServiceApply(t, stored)), t)
  {
    HolderIsAlone(s, t);
    LockInRange(s, t);
    hide SharedLocks, CountedRefs, HeldByHolder, LastApplied, MetaInv;
    ApplyShape(s, ServiceApply(t, stored));
    hide Do;
  }

  lemma ServiceApplyOutcome(s: State, t: nat, stored: Option<Meta>)
    requires LockInv(s) && MetaInv(s) && t in s.threads && s.threads[t].at.Snapped?
    ensures var s', key := Do(s, ServiceApply(t, stored)), s.threads[t].meta.key;
      && t in s'.threads && !s'.threads[t].at.Snapped? && MidApply(s', t) == stored.Some?
      && (stored.None? ==> Lookup(s'.metas, key) == LastApplied(s'.log, key))
      && (stored.Some? ==> key in s'.metas && s'.threads[t].at.previous == LastApplied(s'.log, key))
  {
    LockInRange(s, t);
    HolderIsQuiet(s, t);
    SnapshotsAreLast(s);
    hide SharedLocks, CountedRefs, HeldByHolder, LastApplied, MetaInv;
    ApplyShape(s, ServiceApply(t, stored));
    hide Do;
  }

  lemma ServiceApplyKeepsMetas(s: State, t: nat, stored: Option<Meta>)
    requires LockInv(s) && MetaInv(s) && t in s.threads && s.threads[t].at.Snapped?
    ensures MetaInv(Do(s, ServiceApply(t, stored)))
  {
    hide *;
    InTable(s);
    ServiceApplyOwnKey(s, t, stored);
    ServiceApplyOutcome(s, t, stored);
    HolderKeepsMetas(s, Do(s, ServiceApply(t, stored)), t);
  }

  /** The runtime step of the holder writes no meta, and logs at most its own key. */
  lemma RuntimeStepOwnKey(s: State, t: nat, ok: bool)
    requires LockInv(s) && MetaInv(s) && t in s.threads && s.threads[t].at.Applied?
    ensures OwnKeyOnly(s, Do(s, RuntimeStep(t, ok)), t)
  {
    HolderIsAlone(s, t);
    LockInRange(s, t);
    MidIsLast(s, t);
    hide SharedLocks, CountedRefs, HeldByHolder, LastApplied, MetaInv;
    ApplyShape(s, RuntimeStep(t, ok));
    hide Do;
    var key := s.threads[t].meta.key;
    forall other ensures LastApplied(s.log + [(key, s.metas[key])], other)
      == if other == key then Some(s.metas[key]) else LastApplied(s.log, other)
    {
      LogSnoc(s.log, key, s.metas[key], other);
    }
  }

  lemma RuntimeStepOutcome(s: State, t: nat, ok: bool)
    requires LockInv(s) && MetaInv(s) && t in s.threads && s.threads[t].at.Applied?
    ensures var s', key := Do(s, RuntimeStep(t, ok)), s.threads[t].meta.key;
      && t in s'.threads && !s'.threads[t].at.Snapped? && MidApply(s', t) == !ok && key in s'.metas
      && (ok ==> Lookup(s'.metas, key) == LastApplied(s'.log, key))
      && (!ok ==> s'.threads[t].at.previous == LastApplied(s'.log, key))
  {
    LockInRange(s, t);
    MidIsLast(s, t);
    hide LockInv, SharedLocks, CountedRefs, HeldByHolder, LastApplied, MetaInv;
    ApplyShape(s, RuntimeStep(t, ok));
    hide Do;
    var key := s.threads[t].meta.key;
    LogSnoc(s.log, key, s.metas[key], key);
  }

  lemma RuntimeStepKeepsMetas(s: State, t: nat, ok: bool)
    requires LockInv(s) && MetaInv(s) && t in s.threads && s.threads[t].at.Applied?
    ensures MetaInv(Do(s, RuntimeStep(t, ok)))
  {
    hide *;
    InTable(s);
    RuntimeStepOwnKey(s, t, ok);
    RuntimeStepOutcome(s, t, ok);
    HolderKeepsMetas(s, Do(s, RuntimeStep(t, ok)), t);
  }

  lemma InTable(s: State)
    requires LockInv(s)
    ensures forall key :: key in s.table ==> s.table[key] < |s.locks|
  {
    hide CountedRefs, HeldByHolder;
  }

  lemma RestoreOwnKey(s: State, t: nat)
    requires LockInv(s) && MetaInv(s) && t in s.threads && s.threads[t].at.Restoring?
    ensures OwnKeyOnly(s, Do(s, Restore(t)), t)
  {
    HolderIsAlone(s, t);
    LockInRange(s, t);
    hide SharedLocks, CountedRefs, HeldByHolder, LastApplied, MetaInv;
    ApplyShape(s, Restore(t));
    hide Do;
  }

  lemma RestoreOutcome(s: State, t: nat)
    requires LockInv(s) && MetaInv(s) && t in s.threads && s.threads[t].at.Restoring?
    ensures var s', key := Do(s, Restore(t)), s.threads[t].meta.key;
      && t in s'.threads && !s'.threads[t].at.Snapped? && !MidApply(s', t)
      && Lookup(s'.metas, key) == LastApplied(s'.log, key)
  {
    LockInRange(s, t);
    MidIsLast(s, t);
    hide SharedLocks, CountedRefs, HeldByHolder, LastApplied, MetaInv;
    ApplyShape(s, Restore(t));
    hide Do;
  }

  lemma RestoreKeepsMetas(s: State, t: nat)
    requires LockInv(s) && MetaInv(s) && t in s.threads && s.threads[t].at.Restoring?
    ensures MetaInv(Do(s, Restore(t)))
  {
    hide *;
    InTable(s);
    RestoreOwnKey(s, t);
    RestoreOutcome(s, t);
    HolderKeepsMetas(s, Do(s, Restore(t)), t);
  }

  lemma MidIsLast(s: State, t: nat)
    requires MetaInv(s) && MidApply(s, t)
    ensures s.threads[t].at.previous == LastApplied(s.log, s.threads[t].meta.key) && s.threads[t].meta.key in s.metas
  {
  }

  /** Before the holder writes its key, the key holds what was last applied. */
  lemma HolderIsQuiet(s: State, t: nat)
    requires LockInv(s) && MetaInv(s) && t in s.threads && s.threads[t].at.Holds() && !MidApply(s, t)
    ensures Lookup(s.metas, s.threads[t].meta.key) == LastApplied(s.log, s.threads[t].meta.key)
  {
    HolderIsAlone(s, t);
    hide SharedLocks, CountedRefs, HeldByHolder, LastApplied;
  }

  lemma StepKeepsMetas(s: State, step: Step)
    requires LockInv(s) && MetaInv(s)
    ensures MetaInv(Do(s, step))
  {
    hide CountedRefs, HeldByHolder, LastApplied, MetaInv;
    var s' := Do(s, step);
    if s' != s {
      match step {
        case Snapshot(t) => SnapshotKeepsMetas(s, t);
        case ServiceApply(t, stored) => ServiceApplyKeepsMetas(s, t, stored);
        case RuntimeStep(t, ok) => RuntimeStepKeepsMetas(s, t, ok);
        case Restore(t) => RestoreKeepsMetas(s, t);
        case _ => LockStepKeepsMetas(s, step);
      }
    }
  }

  /** Entering, taking and giving back the lock, and leaving touch no meta. */
  lemma LockStepKeepsMetas(s: State, step: Step)
    requires SharedLocks(s) && MetaInv(s) && (step.Enter? || step.Acquire? || step.Unlock? || step.Release?)
    ensures MetaInv(Do(s, step))
  {
    SnapshotsAreLast(s);
    hide LastApplied, MetaInv;
    var s' := Do(s, step);
    LockStepShape(s, step);
    hide Do;
    QuietKeepsMetas(s, s');
  }

  lemma LockStepShape(s: State, step: Step)
    requires (forall key :: key in s.table ==> s.table[key] < |s.locks|)
      && (step.Enter? || step.Acquire? || step.Unlock? || step.Release?)
    ensures var s' := Do(s, step);
      && s'.metas == s.metas && s'.log == s.log
      && (forall t :: t in s'.threads && t != step.t ==> t in s.threads && s'.threads[t] == s.threads[t])
      && (forall t :: t in s.threads && t != step.t ==> t in s'.threads)
      && (step.t in s'.threads && (s'.threads[step.t].at.Snapped? || MidApply(s', step.t)) ==>
            step.t in s.threads && s'.threads[step.t] == s.threads[step.t])
      && (MidApply(s, step.t) ==> step.t in s'.threads && s'.threads[step.t] == s.threads[step.t])
  {
  }

  lemma SnapshotsAreLast(s: State)
    requires MetaInv(s)
    ensures forall t ::
      t in s.threads && s.threads[t].at.Snapped? ==>
        s.threads[t].at.previous == LastApplied(s.log, s.threads[t].meta.key)
  {
  }

  // ---------------------------------------------------------------- runs

  ghost function Run(steps: seq<Step>): (s: State)
    ensures LockInv(s) && MetaInv(s)
    decreases |steps|
  {
    if steps == [] then Init()
    else
      var s := Run(steps[..|steps| - 1]);
      StepKeepsLocks(s, steps[|steps| - 1]);
      StepKeepsMetas(s, steps[|steps| - 1]);
      Do(s, steps[|steps| - 1])
  }

  /**
   Over every interleaving: no two threads hold the lock of one key, and two live threads of one
   key use the same lock object, whose count is the number of its users.
   */
  lemma RunsExclude(steps: seq<Step>, t: nat, u: nat)
    requires var s := Run(steps); t in s.threads && u in s.threads && s.threads[t].meta.key == s.threads[u].meta.key
    ensures var s := Run(steps);
      && s.threads[t].lock == s.threads[u].lock < |s.locks|
      && s.locks[s.threads[t].lock].refs == |Users(s.threads, s.threads[t].lock)|
      && (s.threads[t].at.Holds() && s.threads[u].at.Holds() ==> t == u)
  {
    var s := Run(steps);
    if s.threads[t].at.Holds() && s.threads[u].at.Holds() {
      MutualExclusion(s, t, u);
    }
  }

  /** Over every interleaving: a key that nobody is in the middle of holds what its last successful apply left. */
  lemma RunsKeepLastApplied(steps: seq<Step>, key: ChannelKey)
    requires forall t :: MidApply(Run(steps), t) ==> Run(steps).threads[t].meta.key != key
    ensures Lookup(Run(steps).metas, key) == LastApplied(Run(steps).log, key)
  {
  }

  /** When nobody is inside, the lock table is empty again. */
  lemma NoThreadsNoLocks(steps: seq<Step>)
    requires Run(steps).threads == map[]
    ensures Run(steps).table == map[]
  {
    var s := Run(steps);
    assert forall l :: Users(map[], l) == {};
    assert s.table.Keys == {};
  }

  // ---------------------------------------------------------------- rollback

  /** A run that goes on from s. */
  ghost function RunFrom(s: State, steps: seq<Step>): (r: State)
    requires LockInv(s) && MetaInv(s)
    ensures LockInv(r) && MetaInv(r)
    decreases |steps|
  {
    if steps == [] then s
    else
      var m := RunFrom(s, steps[..|steps| - 1]);
      StepKeepsLocks(m, steps[|steps| - 1]);
      StepKeepsMetas(m, steps[|steps| - 1]);
      Do(m, steps[|steps| - 1])
  }

  /** All steps are those of other threads. */
  ghost predicate Others(steps: seq<Step>, t: nat) {
    forall k | 0 <= k < |steps| :: steps[k].t != t
  }

  /** The thread stays where it is, and its key keeps its meta and its active mark. */
  ghost predicate KeyUntouched(s: State, s': State, t: nat) {
    && t in s.threads && t in s'.threads && s'.threads[t] == s.threads[t]
    && Lookup(s'.metas, s.threads[t].meta.key) == Lookup(s.metas, s.threads[t].meta.key)
    && (s.threads[t].meta.key in s'.active <==> s.threads[t].meta.key in s.active)
  }

  /** A step writes metas and marks only from inside, and only its own key's. */
  lemma StepTouchesOwnKey(s: State, step: Step, t: nat)
    requires (forall key :: key in s.table ==> s.table[key] < |s.locks|) && step.t != t && t in s.threads
    requires step.t in s.threads && s.threads[step.t].at.Holds() ==> s.threads[step.t].meta.key != s.threads[t].meta.key
    ensures KeyUntouched(s, Do(s, step), t)
  {
  }

  lemma OthersLeaveKey(s: State, step: Step, t: nat)
    requires LockInv(s) && t in s.threads && s.threads[t].at.Holds() && step.t != t
    ensures KeyUntouched(s, Do(s, step), t)
  {
    HolderIsAlone(s, t);
    hide CountedRefs, HeldByHolder;
    StepTouchesOwnKey(s, step, t);
  }

  /** While a thread holds the lock of its key, no run of other threads touches the key. */
  lemma {:induction false} OtherRunsLeaveKey(s: State, steps: seq<Step>, t: nat)
    requires LockInv(s) && MetaInv(s) && t in s.threads && s.threads[t].at.Holds() && Others(steps, t)
    ensures KeyUntouched(s, RunFrom(s, steps), t)
    decreases |steps|
  {
    if steps != [] {
      var n := |steps| - 1;
      assert steps == steps[..n] + [steps[n]];
      OtherRunsLeaveKey(s, steps[..n], t);
      RunFromSnoc(s, steps[..n], steps[n]);
      hide LockInv, MetaInv, Do, RunFrom;
      OthersLeaveKey(RunFrom(s, steps[..n]), steps[n], t);
    }
  }

  /**
   A failing apply of thread t from its snapshot on: the service stores some meta, the runtime
   fails, the snapshot is restored. Other threads may do anything before each of these steps.
   */
  ghost function FailingApply(s: State, t: nat, stored: Meta, a: seq<Step>, b: seq<Step>, c: seq<Step>): (r: State)
    requires LockInv(s) && MetaInv(s)
    ensures LockInv(r) && MetaInv(r)
  {
    RunFrom(RunFrom(RunFrom(s, a + [ServiceApply(t, Some(stored))]), b + [RuntimeStep(t, false)]), c + [Restore(t)])
  }

  lemma RunFromSnoc(s: State, steps: seq<Step>, step: Step)
    requires LockInv(s) && MetaInv(s)
    ensures LockInv(RunFrom(s, steps)) && RunFrom(s, steps + [step]) == Do(RunFrom(s, steps), step)
  {
    assert (steps + [step])[..|steps|] == steps;
  }

  /** What the three steps of a failing apply do to its own key. */
  lemma OwnSteps(s: State, t: nat)
    requires (forall key :: key in s.table ==> s.table[key] < |s.locks|) && At(s, t)
    ensures var thread := s.threads[t]; var key := thread.meta.key;
      && (thread.at.Snapped? ==> forall stored: Meta :: var s' := Do(s, ServiceApply(t, Some(stored)));
            t in s'.threads && s'.threads[t] == thread.(at := Applied(thread.at.previous))
              && (key in s'.active <==> key in s.active))
      && (thread.at.Applied? ==> var s' := Do(s, RuntimeStep(t, false));
            t in s'.threads && s'.threads[t] == thread.(at := Restoring(thread.at.previous))
            && (key in s'.active <==> key in s.active && !thread.meta.deleted))
      && (thread.at.Restoring? ==> var s' := Do(s, Restore(t));
            t in s'.threads && s'.threads[t] == thread.(at := Unlocking)
            && Lookup(s'.metas, key) == thread.at.previous && (key in s'.active <==> key in s.active))
  {
  }

  lemma HoldsInRange(s: State, t: nat)
    requires LockInv(s) && t in s.threads
    ensures At(s, t) && forall key :: key in s.table ==> s.table[key] < |s.locks|
  {
    LockInRange(s, t);
    hide CountedRefs, HeldByHolder;
  }

  /** Others do something, and then t takes one step. */
  lemma OthersThenOwn(s: State, others: seq<Step>, t: nat, step: Step)
    requires LockInv(s) && MetaInv(s) && t in s.threads && s.threads[t].at.Holds() && Others(others, t)
    ensures var m := RunFrom(s, others);
      LockInv(m) && KeyUntouched(s, m, t) && At(m, t) && RunFrom(s, others + [step]) == Do(m, step)
    ensures forall key :: key in RunFrom(s, others).table ==> RunFrom(s, others).table[key] < |RunFrom(s, others).locks|
  {
    OtherRunsLeaveKey(s, others, t);
    RunFromSnoc(s, others, step);
    hide *;
    StillThere(s, RunFrom(s, others), t);
    HoldsInRange(RunFrom(s, others), t);
  }

  lemma StillThere(s: State, s': State, t: nat)
    requires KeyUntouched(s, s', t)
    ensures t in s'.threads
  {
  }

  /** The three steps of t on the way, each after a run of other threads. */
  lemma FailingSteps(s: State, t: nat, stored: Meta, a: seq<Step>, b: seq<Step>, c: seq<Step>)
    requires LockInv(s) && MetaInv(s) && t in s.threads && s.threads[t].at.Snapped?
    requires Others(a, t) && Others(b, t) && Others(c, t)
    ensures var s1 := RunFrom(s, a + [ServiceApply(t, Some(stored))]);
      ThreadAt(s, s1, t, Applied(s.threads[t].at.previous)) && SameMark(s, s1, t)
    ensures var s1 := RunFrom(s, a + [ServiceApply(t, Some(stored))]);
      var s2 := RunFrom(s1, b + [RuntimeStep(t, false)]);
      ThreadAt(s, s2, t, Restoring(s.threads[t].at.previous))
      && (s.threads[t].meta.key in s2.active <==> s.threads[t].meta.key in s.active && !s.threads[t].meta.deleted)
  {
    hide *;
    SnappedSteps(s, t, stored, a);
    var s1 := RunFrom(s, a + [ServiceApply(t, Some(stored))]);
    AppliedSteps(s, s1, t, b);
  }

  ghost predicate ThreadAt(s: State, s': State, t: nat, at: Point) {
    t in s.threads && t in s'.threads && s'.threads[t] == s.threads[t].(at := at)
  }

  ghost predicate SameMark(s: State, s': State, t: nat) {
    t in s.threads && (s.threads[t].meta.key in s'.active <==> s.threads[t].meta.key in s.active)
  }

  lemma SnappedSteps(s: State, t: nat, stored: Meta, others: seq<Step>)
    requires LockInv(s) && MetaInv(s) && t in s.threads && s.threads[t].at.Snapped? && Others(others, t)
    ensures var s' := RunFrom(s, others + [ServiceApply(t, Some(stored))]);
      ThreadAt(s, s', t, Applied(s.threads[t].at.previous)) && SameMark(s, s', t)
  {
    hide LockInv, MetaInv, Do, RunFrom, Others;
    OthersThenOwn(s, others, t, ServiceApply(t, Some(stored)));
    OwnSteps(RunFrom(s, others), t);
  }

  lemma AppliedSteps(s: State, s1: State, t: nat, others: seq<Step>)
    requires LockInv(s1) && MetaInv(s1) && Others(others, t) && t in s.threads && s.threads[t].at.Snapped?
    requires ThreadAt(s, s1, t, Applied(s.threads[t].at.previous)) && SameMark(s, s1, t)
    ensures var s2 := RunFrom(s1, others + [RuntimeStep(t, false)]);
      ThreadAt(s, s2, t, Restoring(s.threads[t].at.previous))
      && (s.threads[t].meta.key in s2.active <==> s.threads[t].meta.key in s.active && !s.threads[t].meta.deleted)
  {
    hide LockInv, MetaInv, Do, RunFrom, Others;
    OthersThenOwn(s1, others, t, RuntimeStep(t, false));
    OwnSteps(RunFrom(s1, others), t);
  }

  lemma RestoringSteps(s2: State, t: nat, others: seq<Step>)
    requires LockInv(s2) && MetaInv(s2) && Others(others, t) && t in s2.threads && s2.threads[t].at.Restoring?
    ensures var end := RunFrom(s2, others + [Restore(t)]);
      && t in end.threads && end.threads[t].at.Unlocking? && SameMark(s2, end, t)
      && Lookup(end.metas, s2.threads[t].meta.key) == s2.threads[t].at.previous
  {
    hide LockInv, MetaInv, Do, RunFrom, Others;
    OthersThenOwn(s2, others, t, Restore(t));
    OwnSteps(RunFrom(s2, others), t);
  }

  /**
   A failed runtime step puts the meta back to what it was before the apply, whatever other
   threads do in between. It puts the channel's active mark back if and only if it was not the
   removal of an active channel.
   */
  lemma RollbackExactly(s: State, t: nat, stored: Meta, a: seq<Step>, b: seq<Step>, c: seq<Step>)
    requires LockInv(s) && MetaInv(s) && t in s.threads && s.threads[t].at.Snapped?
    requires Others(a, t) && Others(b, t) && Others(c, t)
    ensures var end, key := FailingApply(s, t, stored, a, b, c), s.threads[t].meta.key;
      && t in end.threads && end.threads[t].at.Unlocking?
      && Lookup(end.metas, key) == Lookup(s.metas, key)
      && ((key in end.active <==> key in s.active) <==> !(s.threads[t].meta.deleted && key in s.active))
  {
    SnapshotWasTaken(s, t);
    hide LockInv, MetaInv, RunFrom, Others;
    FailingSteps(s, t, stored, a, b, c);
    var s1 := RunFrom(s, a + [ServiceApply(t, Some(stored))]);
    var s2 := RunFrom(s1, b + [RuntimeStep(t, false)]);
    RestoringSteps(s2, t, c);
  }

  /** No step of an apply touches another key. */
  lemma StepLeavesOtherKeys(s: State, step: Step, key: ChannelKey)
    requires (forall k :: k in s.table ==> s.table[k] < |s.locks|) && step.t in s.threads
      && s.threads[step.t].meta.key != key
    ensures Lookup(Do(s, step).metas, key) == Lookup(s.metas, key) && (key in Do(s, step).active <==> key in s.active)
  {
  }

  lemma OwnStepLeavesOtherKeys(s: State, t: nat, step: Step, key: ChannelKey)
    requires LockInv(s) && MetaInv(s) && t in s.threads && step.t == t && s.threads[t].meta.key != key
    ensures var s' := RunFrom(s, [] + [step]);
      Lookup(s'.metas, key) == Lookup(s.metas, key) && (key in s'.active <==> key in s.active)
  {
    HoldsInRange(s, t);
    RunFromSnoc(s, [], step);
    assert RunFrom(s, []) == s;
    hide *;
    StepLeavesOtherKeys(s, step, key);
  }

  /** Without the other threads, a failing apply touches no other key at all. */
  lemma RollbackLeavesOtherKeys(s: State, t: nat, stored: Meta, key: ChannelKey)
    requires LockInv(s) && MetaInv(s) && t in s.threads && s.threads[t].at.Snapped? && s.threads[t].meta.key != key
    ensures var end := FailingApply(s, t, stored, [], [], []);
      Lookup(end.metas, key) == Lookup(s.metas, key) && (key in end.active <==> key in s.active)
  {
    NoOthers(t);
    hide LockInv, MetaInv, RunFrom, Others, Lookup;
    FailingSteps(s, t, stored, [], [], []);
    var s1 := RunFrom(s, [] + [ServiceApply(t, Some(stored))]);
    var s2 := RunFrom(s1, [] + [RuntimeStep(t, false)]);
    OwnStepLeavesOtherKeys(s, t, ServiceApply(t, Some(stored)), key);
    OwnStepLeavesOtherKeys(s1, t, RuntimeStep(t, false), key);
    OwnStepLeavesOtherKeys(s2, t, Restore(t), key);
  }

  lemma NoOthers(t: nat)
    ensures Others([], t)
  {
  }

  /** The snapshot that a thread holds is what its key has. */
  lemma SnapshotWasTaken(s: State, t: nat)
    requires LockInv(s) && MetaInv(s) && t in s.threads && s.threads[t].at.Snapped?
    ensures s.threads[t].at.previous == Lookup(s.metas, s.threads[t].meta.key)
  {
    HolderIsQuiet(s, t);
    SnapshotsAreLast(s);
    hide *;
  }

  /**
   An apply that the service takes and the runtime carries out leaves what the service stored,
   and the channel is active unless it was removed. One that the service refuses leaves all as it
   was. Other threads may do anything before the steps, and until the lock is given back.
   */
  lemma ApplyExactly(s: State, t: nat, stored: Meta, a: seq<Step>, b: seq<Step>, c: seq<Step>)
    requires LockInv(s) && MetaInv(s) && t in s.threads && s.threads[t].at.Snapped?
    requires Others(a, t) && Others(b, t) && Others(c, t)
    ensures var key := s.threads[t].meta.key;
      var end := RunFrom(RunFrom(RunFrom(s, a + [ServiceApply(t, Some(stored))]), b + [RuntimeStep(t, true)]), c);
      && t in end.threads && end.threads[t].at.Unlocking?
      && Lookup(end.metas, key) == Some(stored) && (key in end.active <==> !s.threads[t].meta.deleted)
    ensures var key := s.threads[t].meta.key;
      var end := RunFrom(RunFrom(s, a + [ServiceApply(t, None)]), c);
      && t in end.threads && end.threads[t].at.Unlocking?
      && Lookup(end.metas, key) == Lookup(s.metas, key) && (key in end.active <==> key in s.active)
  {
    hide LockInv, MetaInv, RunFrom, Others, Do;
    StoringSteps(s, t, stored, a);
    var s1 := RunFrom(s, a + [ServiceApply(t, Some(stored))]);
    SucceedingSteps(s1, t, b);
    OtherRunsLeaveKey(RunFrom(s1, b + [RuntimeStep(t, true)]), c, t);
    RefusedSteps(s, t, a);
    OtherRunsLeaveKey(RunFrom(s, a + [ServiceApply(t, None)]), c, t);
  }

  /** What the two calls of an apply without failure do to its own key, and a call that is refused. */
  lemma OwnSuccess(s: State, t: nat)
    requires (forall key :: key in s.table ==> s.table[key] < |s.locks|) && At(s, t)
    ensures var thread := s.threads[t]; var key := thread.meta.key;
      && (thread.at.Snapped? ==> forall stored: Meta :: var s' := Do(s, ServiceApply(t, Some(stored)));
            ThreadAt(s, s', t, Applied(thread.at.previous)) && Lookup(s'.metas, key) == Some(stored))
      && (thread.at.Snapped? ==> var s' := Do(s, ServiceApply(t, None));
            ThreadAt(s, s', t, Unlocking) && Lookup(s'.metas, key) == Lookup(s.metas, key) && SameMark(s, s', t))
      && (thread.at.Applied? ==> var s' := Do(s, RuntimeStep(t, true));
            ThreadAt(s, s', t, Unlocking) && Lookup(s'.metas, key) == Lookup(s.metas, key)
            && (key in s'.active <==> !thread.meta.deleted))
  {
  }

  lemma StoringSteps(s: State, t: nat, stored: Meta, others: seq<Step>)
    requires LockInv(s) && MetaInv(s) && t in s.threads && s.threads[t].at.Snapped? && Others(others, t)
    ensures var s' := RunFrom(s, others + [ServiceApply(t, Some(stored))]);
      ThreadAt(s, s', t, Applied(s.threads[t].at.previous)) && Lookup(s'.metas, s.threads[t].meta.key) == Some(stored)
  {
    hide LockInv, MetaInv, Do, RunFrom, Others;
    OthersThenOwn(s, others, t, ServiceApply(t, Some(stored)));
    OwnSuccess(RunFrom(s, others), t);
  }

  lemma SucceedingSteps(s: State, t: nat, others: seq<Step>)
    requires LockInv(s) && MetaInv(s) && t in s.threads && s.threads[t].at.Applied? && Others(others, t)
    ensures var s' := RunFrom(s, others + [RuntimeStep(t, true)]); var key := s.threads[t].meta.key;
      ThreadAt(s, s', t, Unlocking) && Lookup(s'.metas, key) == Lookup(s.metas, key)
      && (key in s'.active <==> !s.threads[t].meta.deleted)
  {
    hide LockInv, MetaInv, Do, RunFrom, Others;
    OthersThenOwn(s, others, t, RuntimeStep(t, true));
    OwnSuccess(RunFrom(s, others), t);
  }

  lemma RefusedSteps(s: State, t: nat, others: seq<Step>)
    requires LockInv(s) && MetaInv(s) && t in s.threads && s.threads[t].at.Snapped? && Others(others, t)
    ensures var s' := RunFrom(s, others + [ServiceApply(t, None)]); var key := s.threads[t].meta.key;
      ThreadAt(s, s', t, Unlocking) && Lookup(s'.metas, key) == Lookup(s.metas, key) && SameMark(s, s', t)
  {
    hide LockInv, MetaInv, Do, RunFrom, Others;
    OthersThenOwn(s, others, t, ServiceApply(t, None));
    OwnSuccess(RunFrom(s, others), t);
  }

  // A run in which the active mark is lost.

  lemma RunSnoc(steps: seq<Step>, step: Step)
    requires forall key :: key in Run(steps).table ==> Run(steps).table[key] < |Run(steps).locks|
    ensures Run(steps + [step]) == Do(Run(steps), step)
  {
    assert (steps + [step])[..|steps|] == steps;
  }

  /** s with one thread inside, that holds the lock of an otherwise unused key. */
  function Solo(s: State, t: nat, meta: Meta, at: Point): State {
    s.(table := map[meta.key := |s.locks|], locks := s.locks + [Lock(1, Some(t))],
      threads := map[t := Thread(meta, |s.locks|, at)])
  }

  lemma SoloEnters(s: State, t: nat, meta: Meta)
    requires s.table == map[] && s.threads == map[]
    ensures var entered := Do(s, Enter(t, meta));
      (forall key :: key in entered.table ==> entered.table[key] < |entered.locks|)
        && Do(entered, Acquire(t)) == Solo(s, t, meta, Holding)
  {
    var entered := Do(s, Enter(t, meta));
    assert entered.threads == map[t := Thread(meta, |s.locks|, Waiting)] && entered.table == map[meta.key := |s.locks|];
  }

  lemma SoloSnapshots(s: State, t: nat, meta: Meta)
    ensures Do(Solo(s, t, meta, Holding), Snapshot(t)) == Solo(s, t, meta, Snapped(Lookup(s.metas, meta.key)))
  {
  }

  lemma SoloApplies(s: State, t: nat, meta: Meta, previous: Option<Meta>)
    ensures Do(Solo(s, t, meta, Snapped(previous)), ServiceApply(t, Some(meta)))
         == Solo(s.(metas := s.metas[meta.key := meta]), t, meta, Applied(previous))
  {
  }

  lemma SoloFails(s: State, t: nat, meta: Meta, previous: Option<Meta>)
    requires meta.deleted
    ensures Do(Solo(s, t, meta, Applied(previous)), RuntimeStep(t, false))
         == Solo(s.(active := s.active - {meta.key}), t, meta, Restoring(previous))
  {
  }

  lemma SoloSucceeds(s: State, t: nat, meta: Meta, previous: Option<Meta>)
    requires !meta.deleted && meta.key in s.metas
    ensures Do(Solo(s, t, meta, Applied(previous)), RuntimeStep(t, true))
         == Solo(s.(active := s.active + {meta.key}, log := s.log + [(meta.key, s.metas[meta.key])]), t, meta,
           Unlocking)
  {
  }

  lemma SoloRestores(s: State, t: nat, meta: Meta, previous: Option<Meta>)
    ensures Do(Solo(s, t, meta, Restoring(previous)), Restore(t))
         == Solo(s.(metas := Store(s.metas, meta.key, previous)), t, meta, Unlocking)
  {
  }

  lemma SoloLeaves(s: State, t: nat, meta: Meta)
    requires s.table == map[] && s.threads == map[]
    ensures var out := Do(Solo(s, t, meta, Unlocking), Unlock(t));
      (forall key :: key in out.table ==> out.table[key] < |out.locks|)
      && Do(out, Release(t)) == s.(locks := s.locks + [Lock(0, None)])
  {
    var out := Do(Solo(s, t, meta, Unlocking), Unlock(t));
    assert out.threads == map[t := Thread(meta, |s.locks|, Releasing)] && out.table == map[meta.key := |s.locks|];
    assert out.threads - {t} == map[] && out.table - {meta.key} == map[];
  }

  lemma RunMore(steps: seq<Step>, step: Step)
    requires LockInv(Run(steps))
    ensures Run(steps + [step]) == Do(Run(steps), step)
  {
    RunSnoc(steps, step);
  }

  /** An apply by a thread that is alone, up to its call into the runtime. */
  lemma SoloRun(steps: seq<Step>, t: nat, meta: Meta) returns (more: seq<Step>)
    requires Run(steps).table == map[] && Run(steps).threads == map[]
    ensures var s := Run(steps);
      Run(more) == Solo(s.(metas := s.metas[meta.key := meta]), t, meta, Applied(Lookup(s.metas, meta.key)))
  {
    var s := Run(steps);
    hide *;
    SoloEnters(s, t, meta);
    SoloSnapshots(s, t, meta);
    SoloApplies(s, t, meta, Lookup(s.metas, meta.key));
    RunMore(steps, Enter(t, meta));
    more := steps + [Enter(t, meta)];
    RunMore(more, Acquire(t));
    more := more + [Acquire(t)];
    RunMore(more, Snapshot(t));
    more := more + [Snapshot(t)];
    RunMore(more, ServiceApply(t, Some(meta)));
    more := more + [ServiceApply(t, Some(meta))];
  }

  /** The channel after its first apply, when the thread is gone. */
  function ActiveChannel(meta: Meta): State {
    State(map[], [Lock(0, None)], map[], map[meta.key := meta], {meta.key}, [(meta.key, meta)])
  }

  lemma FirstApply(meta: Meta)
    ensures Init().table == map[] && Init().threads == map[] && Lookup(Init().metas, meta.key) == None
    ensures var s := Init().(metas := Init().metas[meta.key := meta]);
      && meta.key in s.metas && s.table == map[] && s.threads == map[]
      && s.(active := s.active + {meta.key}, log := s.log + [(meta.key, s.metas[meta.key])],
        locks := s.locks + [Lock(0, None)])
         == ActiveChannel(meta)
  {
    assert map[][meta.key := meta] == map[meta.key := meta];
  }

  /** One apply that succeeds makes the channel active. */
  lemma ChannelBecomesActive(meta: Meta) returns (steps: seq<Step>)
    requires !meta.deleted
    ensures Run(steps) == ActiveChannel(meta)
  {
    assert Run([]) == Init();
    FirstApply(meta);
    hide *;
    steps := SoloRun([], 1, meta);
    var s := Init().(metas := Init().metas[meta.key := meta]);
    SoloSucceeds(s, 1, meta, None);
    RunMore(steps, RuntimeStep(1, true));
    steps := steps + [RuntimeStep(1, true)];
    SoloLeaves(s.(active := s.active + {meta.key}, log := s.log + [(meta.key, s.metas[meta.key])]), 1, meta);
    RunMore(steps, Unlock(1));
    steps := steps + [Unlock(1)];
    RunMore(steps, Release(1));
    steps := steps + [Release(1)];
  }

  lemma LastRemoval(meta: Meta, removal: Meta)
    requires removal.key == meta.key
    ensures ActiveChannel(meta).table == map[] && ActiveChannel(meta).threads == map[]
    ensures Lookup(ActiveChannel(meta).metas, removal.key) == Some(meta)
    ensures var s := ActiveChannel(meta).(metas := ActiveChannel(meta).metas[removal.key := removal], active := {});
      Store(s.metas, removal.key, Some(meta)) == map[meta.key := meta]
        && ActiveChannel(meta).active - {removal.key} == {}
    ensures var s := ActiveChannel(meta).(metas := map[meta.key := meta], active := {});
      Solo(s, 2, removal, Unlocking) == s.(table := map[meta.key := 1], locks := [Lock(0, None), Lock(1, Some(2))],
                                           threads := map[2 := Thread(removal, 1, Unlocking)])
  {
  }

  /** The removal of an active channel fails: afterwards the channel has its metadata again and is not active. */
  lemma FailedRemovalLosesActiveMark(meta: Meta, removal: Meta) returns (steps: seq<Step>)
    requires !meta.deleted && removal.deleted && removal.key == meta.key
    ensures Run(steps)
      == State(map[meta.key := 1], [Lock(0, None), Lock(1, Some(2))], map[2 := Thread(removal, 1, Unlocking)],
                                map[meta.key := meta], {}, [(meta.key, meta)])
  {
    steps := ChannelBecomesActive(meta);
    LastRemoval(meta, removal);
    var before := ActiveChannel(meta);
    assert before.log == [(meta.key, meta)];
    hide *;
    steps := SoloRun(steps, 2, removal);
    var s := before.(metas := before.metas[removal.key := removal]);
    SoloFails(s, 2, removal, Some(meta));
    RunMore(steps, RuntimeStep(2, false));
    steps := steps + [RuntimeStep(2, false)];
    SoloRestores(s.(active := {}), 2, removal, Some(meta));
    RunMore(steps, Restore(2));
    steps := steps + [Restore(2)];
  }

  lemma LockInRange(s: State, t: nat)
    requires LockInv(s) && t in s.threads
    ensures s.threads[t].lock < |s.locks|
  {
  }
}
