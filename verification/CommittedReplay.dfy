/**
 One replay pass over one channel (internal/app/committed_replay.go).

 The log, the runtime and delivery answer whatever they like, and may answer differently in
 every iteration: commits, leader changes and retention happen between iterations. What the
 pass does to the outside is recorded as a trace of events.
 */
module CommittedReplay {
  import opened Options
  import opened Sequence64

  datatype Error = LogError | DeliveryError | Cancelled | CorruptState

  datatype ReplayState = ReplayState(committed: Seq64, minAvailable: Seq64)

  datatype Event =
    | Observed(state: ReplayState)
    | Jumped(target: Seq64)
    | Accepted(q: Seq64)
    | Stored(q: Seq64)

  /** Answers to the calls of one pass, by iteration; None and false stand for an error. */
  datatype Environment = Environment(
    cursor: Option<Option<Seq64>>,
    state: nat -> Option<ReplayState>,
    advanceDurable: nat -> bool,
    load: (nat, Seq64) -> Option<seq<Seq64>>,
    live: (nat, nat) -> bool,
    deliver: (nat, nat) -> bool,
    store: nat -> bool)

  // ---------------------------------------------------------------- what a trace may be

  /**
   Where a pass stands: the cursor it has stored or jumped to, the last accepted sequence, what
   it observed last, and whether that was since it last stored a cursor.
   */
  datatype Progress = Progress(cursor: Seq64, last: Seq64, frontier: Seq64, floor: Seq64, observed: bool)

  function StartAt(cursor: Seq64): Progress {
    Progress(cursor, cursor, 0, 1, false)
  }

  /** A disciplined event; None for an event that no pass may produce at this point. */
  function Advance(p: Progress, e: Event): Option<Progress> {
    match e
    case Observed(st) =>
      if p.observed || p.last != p.cursor then None
      else Some(Progress(p.cursor, p.last, st.committed, NormalizeMinAvailable(st.minAvailable), true))
    case Jumped(t) =>
      if p.observed && p.last == p.cursor < t && t + 1 == p.floor then Some(p.(cursor := t, last := t)) else None
    case Accepted(q) =>
      if p.observed && q == p.last + 1 && q <= p.frontier && p.floor <= q then Some(p.(last := q)) else None
    case Stored(q) =>
      if p.observed && p.cursor < q == p.last then Some(p.(cursor := q, observed := false)) else None
  }

  function Walk(p: Progress, trace: seq<Event>): Option<Progress>
    decreases |trace|
  {
    if trace == [] then Some(p)
    else
      match Walk(p, trace[..|trace| - 1])
      case None => None
      case Some(q) => Advance(q, trace[|trace| - 1])
  }

  function Observations(trace: seq<Event>): nat {
    if trace == [] then 0
    else Observations(trace[..|trace| - 1]) + if trace[|trace| - 1].Observed? then 1 else 0
  }

  lemma WalkSnoc(p: Progress, trace: seq<Event>, e: Event)
    requires Walk(p, trace).Some?
    ensures Walk(p, trace + [e]) == Advance(Walk(p, trace).value, e)
    ensures Observations(trace + [e]) == Observations(trace) + if e.Observed? then 1 else 0
  {
    assert (trace + [e])[..|trace|] == trace;
  }

  /** Sequence q was accepted in the trace or lies below a retention floor that the trace jumped to. */
  ghost predicate AccountedFor(trace: seq<Event>, q: Seq64) {
    Accepted(q) in trace || exists t: Seq64 :: Jumped(t) in trace && q <= t
  }

  /**
   A pass skips nothing: every sequence between the cursor it started from and the last one
   it accepted was itself accepted, or is hidden by retention.
   */
  lemma {:induction false} WalkSkipsNothing(p: Progress, trace: seq<Event>, q: Seq64)
    requires p.last == p.cursor && Walk(p, trace).Some?
    requires p.cursor < q <= Walk(p, trace).value.last
    ensures AccountedFor(trace, q)
    decreases |trace|
  {
    if trace != [] {
      var init, e := trace[..|trace| - 1], trace[|trace| - 1];
      var before := Walk(p, init).value;
      if q <= before.last {
        WalkSkipsNothing(p, init, q);
        assert forall x | x in init :: x in trace;
      } else {
        assert e in trace;
        if e.Jumped? {
          assert Jumped(e.target) in trace;
        }
      }
    }
  }

  /** Every prefix of a disciplined trace is disciplined. */
  lemma {:induction false} WalkPrefix(p: Progress, trace: seq<Event>, k: nat)
    requires k <= |trace| && Walk(p, trace).Some?
    ensures Walk(p, trace[..k]).Some?
    decreases |trace|
  {
    if k < |trace| {
      WalkPrefix(p, trace[..|trace| - 1], k);
      assert trace[..|trace| - 1][..k] == trace[..k];
    } else {
      assert trace[..k] == trace;
    }
  }

  /**
   A cursor is stored only over a fully accepted batch: when the trace stores q, everything
   above the starting cursor up to q is already accounted for at that moment.
   */
  lemma StoredOnlyAfterAcceptance(cursor: Seq64, trace: seq<Event>, k: nat, q: Seq64)
    requires Walk(StartAt(cursor), trace).Some? && k < |trace| && trace[k].Stored? && cursor < q <= trace[k].q
    ensures AccountedFor(trace[..k], q)
  {
    WalkPrefix(StartAt(cursor), trace, k);
    WalkPrefix(StartAt(cursor), trace, k + 1);
    assert trace[..k + 1][..k] == trace[..k];
    WalkSkipsNothing(StartAt(cursor), trace[..k], q);
  }

  /** Nothing is delivered beyond the frontier observed last before it, or below the floor. */
  lemma AcceptedWithinFrontier(cursor: Seq64, trace: seq<Event>, k: nat)
    requires Walk(StartAt(cursor), trace).Some? && k < |trace| && trace[k].Accepted?
    ensures exists j :: 0 <= j < k && trace[j].Observed? && trace[k].q <= trace[j].state.committed
                        && trace[j].state.minAvailable <= trace[k].q
                        && forall i | j < i < k :: !trace[i].Observed?
  {
    WalkPrefix(StartAt(cursor), trace, k);
    WalkPrefix(StartAt(cursor), trace, k + 1);
    assert trace[..k + 1][..k] == trace[..k];
    var at := LatestObservation(StartAt(cursor), trace[..k]);
  }

  /**
   A pass jumps only over what the runtime has just reported as hidden: the last observation
   before a jump reported the sequence behind the jump's target as its first readable one. A
   report of 0 or 1 hides nothing and makes no pass jump.
   */
  lemma JumpsOnlyToReportedFloor(cursor: Seq64, trace: seq<Event>, k: nat)
    requires Walk(StartAt(cursor), trace).Some? && k < |trace| && trace[k].Jumped?
    ensures exists j :: 0 <= j < k && trace[j].Observed? && trace[k].target + 1 == trace[j].state.minAvailable
                        && 1 < trace[j].state.minAvailable
                        && forall i | j < i < k :: !trace[i].Observed?
  {
    WalkPrefix(StartAt(cursor), trace, k);
    WalkPrefix(StartAt(cursor), trace, k + 1);
    assert trace[..k + 1][..k] == trace[..k];
    var at := LatestObservation(StartAt(cursor), trace[..k]);
  }

  /** The observation at j is the latest one of the trace. */
  ghost predicate Latest(trace: seq<Event>, j: nat) {
    j < |trace| && trace[j].Observed? && forall i | j < i < |trace| :: !trace[i].Observed?
  }

  /** What a walk knows is what its latest observation reported, if there is one. */
  lemma {:induction false} LatestObservation(p: Progress, trace: seq<Event>) returns (at: Option<nat>)
    requires Walk(p, trace).Some?
    ensures var r := Walk(p, trace).value;
      match at
      case None => (forall i | 0 <= i < |trace| :: !trace[i].Observed?) && r.frontier == p.frontier
        && r.floor == p.floor
      case Some(j) =>
        && Latest(trace, j) && r.frontier == trace[j].state.committed
        && r.floor == NormalizeMinAvailable(trace[j].state.minAvailable)
    decreases |trace|
  {
    if trace == [] {
      return None;
    }
    var n := |trace| - 1;
    at := LatestObservation(p, trace[..n]);
    if trace[n].Observed? {
      return Some(n);
    }
    hide NormalizeMinAvailable;
  }

  // ---------------------------------------------------------------- the pass

  /** The outside has agreed to the event in iteration i: it happened because a call succeeded. */
  ghost predicate Granted(env: Environment, i: nat, e: Event) {
    match e
    case Observed(state) => env.state(i) == Some(state)
    case Jumped(_) => env.advanceDurable(i)
    case Accepted(q) => exists s: Seq64, k: nat :: Taken(env, i, s, k, q)
    case Stored(_) => env.store(i)
  }

  /** Row k of a batch read from s is q, and delivery took it while the pass was live. */
  ghost predicate Taken(env: Environment, i: nat, s: Seq64, k: nat, q: Seq64) {
    env.load(i, s).Some? && k < |env.load(i, s).value| && env.load(i, s).value[k] == q
      && env.live(i, k) && env.deliver(i, k)
  }

  ghost predicate AllGranted(env: Environment, i: nat, events: seq<Event>) {
    forall e :: e in events ==> Granted(env, i, e)
  }

  /** No call of iteration i fails, and the log answers reads without a gap. */
  ghost predicate Works(env: Environment, i: nat) {
    && env.state(i).Some? && env.advanceDurable(i) && env.store(i)
    && (forall k: nat :: env.live(i, k) && env.deliver(i, k))
    && forall s: Seq64 :: env.load(i, s).Some?
         && forall j | 0 <= j < |env.load(i, s).value| :: env.load(i, s).value[j] == s + j
  }

  /** The committed frontier stays at C and the log answers reads with consecutive rows. */
  ghost predicate Steady(env: Environment, frontier: Seq64, batchSize: nat) {
    && (forall i: nat :: env.state(i).Some? ==> env.state(i).value.committed == frontier)
    && (forall i: nat, s: Seq64 :: env.load(i, s).Some? ==>
          var rows := env.load(i, s).value;
          |rows| <= batchSize && forall j | 0 <= j < |rows| :: rows[j] == s + j)
  }

  /** A batch is short only when it reaches the frontier: the byte limit does not cut it. */
  ghost predicate Uncut(env: Environment, frontier: Seq64, batchSize: nat) {
    forall i: nat, s: Seq64 :: env.load(i, s).Some? ==>
      |env.load(i, s).value| < batchSize ==> frontier < s + |env.load(i, s).value|
  }

  /** The rows above the cursor, in order. */
  function Above(rows: seq<Seq64>, cursor: Seq64): seq<Seq64> {
    if rows == [] then []
    else Above(rows[..|rows| - 1], cursor) + if rows[|rows| - 1] > cursor then [rows[|rows| - 1]] else []
  }

  /** Above the cursor the rows are cursor + 1, cursor + 2 and so on, up to `last`. */
  ghost predicate Consecutive(rows: seq<Seq64>, cursor: Seq64, last: Seq64) {
    && cursor <= last && |Above(rows, cursor)| == last - cursor
    && forall j | 0 <= j < last - cursor :: Above(rows, cursor)[j] == cursor + 1 + j
  }

  lemma ReadOneMore(rows: seq<Seq64>, k: nat, cursor: Seq64, last: Seq64)
    requires k < |rows| && Consecutive(rows[..k], cursor, last)
    ensures rows[k] <= cursor ==> Consecutive(rows[..k + 1], cursor, last)
    ensures rows[k] == last + 1 ==> Consecutive(rows[..k + 1], cursor, rows[k])
  {
    assert rows[..k + 1][..k] == rows[..k];
  }

  /** The rows follow the cursor without a gap. */
  ghost predicate Unbroken(rows: seq<Seq64>, cursor: Seq64) {
    forall j | 0 <= j < |rows| :: rows[j] == cursor + 1 + j
  }

  lemma {:induction false} UnbrokenIsRead(rows: seq<Seq64>, k: nat, cursor: Seq64, last: Seq64)
    requires k <= |rows| && Consecutive(rows[..k], cursor, last)
    ensures Unbroken(rows, cursor) ==> last == cursor + k
  {
    if Unbroken(rows, cursor) {
      AllAbove(rows, k, cursor);
    }
  }

  lemma {:induction false} AllAbove(rows: seq<Seq64>, k: nat, cursor: Seq64)
    requires k <= |rows| && Unbroken(rows, cursor)
    ensures |Above(rows[..k], cursor)| == k
    decreases k
  {
    if k > 0 {
      AllAbove(rows, k - 1, cursor);
      assert rows[..k][..k - 1] == rows[..k - 1];
    }
  }

  class CommittedReplayer {
    const batchSize: nat
    /** What the current pass has done to the log, the runtime and delivery. */
    var events: seq<Event>

    constructor (batchSize: int)
      ensures this.batchSize == (if batchSize <= 0 then 512 else batchSize) && events == []
    {
      this.batchSize := if batchSize <= 0 then 512 else batchSize;
      events := [];
    }

    /** The pass that started from `p` stands at `cursor` with nothing accepted beyond it. */
    ghost predicate At(p: Progress, cursor: Seq64)
      reads this
    {
      Walk(p, events).Some? && Walk(p, events).value.cursor == Walk(p, events).value.last == cursor
    }

    method Record(ghost p: Progress, e: Event)
      requires Walk(p, events).Some?
      modifies `events
      ensures events == old(events) + [e]
      ensures Walk(p, events) == Advance(Walk(p, old(events)).value, e)
      ensures Observations(events) == Observations(old(events)) + if e.Observed? then 1 else 0
    {
      WalkSnoc(p, events, e);
      events := events + [e];
    }

    /**
     Hands the rows of one batch to delivery, in order, until one is refused or lies past the
     frontier. The rows it goes through are, above the cursor, exactly the sequences up to `last`;
     it goes through all of them or meets the one behind the frontier, unless it fails, and the
     failure is a corrupt state exactly when the next row leaves a gap.
     */
    method SubmitBatch(env: Environment, i: nat, rows: seq<Seq64>, ghost p: Progress, cursor: Seq64, frontier: Seq64)
        returns (last: Seq64, err: Option<Error>, ghost read: nat)
      requires At(p, cursor) && Walk(p, events).value.observed
      requires cursor < frontier == Walk(p, events).value.frontier && Walk(p, events).value.floor <= cursor + 1
      modifies `events
      ensures read <= |rows| && Consecutive(rows[..read], cursor, last)
      ensures err.None? ==> read == |rows| || (last == frontier && rows[read] == frontier + 1)
      ensures err.Some? ==> read < |rows| && err.value != LogError
      ensures err == Some(CorruptState) ==> cursor < rows[read] && rows[read] != last + 1
      ensures err == Some(DeliveryError) ==> rows[read] == last + 1 <= frontier && !env.deliver(i, read)
      ensures err == Some(Cancelled) <==> read < |rows| && !env.live(i, read)
      ensures forall k | 0 <= k < read :: env.live(i, k) && (cursor < rows[k] ==> env.deliver(i, k))
      ensures old(events) <= events && TakenOnly(env, i, rows, read, events[|old(events)|..])
      ensures Walk(p, events) == Some(Walk(p, old(events)).value.(last := last))
      ensures Observations(events) == Observations(old(events))
      ensures cursor <= last <= frontier
      ensures Unbroken(rows, cursor) ==> err != Some(CorruptState)
      ensures err.None? && Unbroken(rows, cursor) ==>
        last == if cursor + |rows| <= frontier then cursor + |rows| else frontier
    {
      last, err, read := cursor, None, 0;
      assert rows[..0] == [] && Consecutive([], cursor, cursor);
      NothingTaken(env, i, rows, events);
      ghost var start := Walk(p, events).value;
      hide *;
      for k: nat := 0 to |rows|
        invariant read == k && cursor <= last <= frontier && Consecutive(rows[..k], cursor, last)
        invariant Walk(p, events) == Some(start.(last := last)) && Observations(events) == Observations(old(events))
        invariant forall j | 0 <= j < k :: env.live(i, j) && (cursor < rows[j] ==> env.deliver(i, j))
        invariant old(events) <= events && TakenOnly(env, i, rows, k, events[|old(events)|..])
      {
        if !env.live(i, k) {
          return last, Some(Cancelled), k;
        }
        ReadOneMore(rows, k, cursor, last);
        TakenMore(env, i, rows, k, events[|old(events)|..]);
        if rows[k] <= cursor {
          read := k + 1;
          continue;
        }
        SuccessorIs(rows[k], last);
        if rows[k] != WrappingSucc(last) {
          NoGap(rows, k, cursor, last);
          return last, Some(CorruptState), k;
        }
        if rows[k] > frontier {
          UnbrokenIsRead(rows, k, cursor, last);
          return last, None, k;
        }
        if !env.deliver(i, k) {
          return last, Some(DeliveryError), k;
        }
        TailSnoc(events, |old(events)|, Accepted(rows[k]));
        Record(p, Accepted(rows[k]));
        AcceptedNext(start.(last := last), rows[k]);
        last, read := rows[k], k + 1;
      }
      UnbrokenIsRead(rows, |rows|, cursor, last);
    }

    /** The events are acceptances of some of the first k rows, each taken by delivery while the pass was live. */
    ghost predicate TakenOnly(env: Environment, i: nat, rows: seq<Seq64>, k: nat, events: seq<Event>) {
      k <= |rows| && forall e :: e in events ==>
        exists j: nat :: j < k && e == Accepted(rows[j]) && env.live(i, j) && env.deliver(i, j)
    }

    lemma NothingTaken(env: Environment, i: nat, rows: seq<Seq64>, before: seq<Event>)
      ensures TakenOnly(env, i, rows, 0, before[|before|..])
    {
    }

    lemma TakenMore(env: Environment, i: nat, rows: seq<Seq64>, k: nat, events: seq<Event>)
      requires k < |rows| && TakenOnly(env, i, rows, k, events) && env.live(i, k)
      ensures TakenOnly(env, i, rows, k + 1, events)
      ensures env.deliver(i, k) ==> TakenOnly(env, i, rows, k + 1, events + [Accepted(rows[k])])
    {
    }

    lemma NoGap(rows: seq<Seq64>, k: nat, cursor: Seq64, last: Seq64)
      requires k < |rows| && Consecutive(rows[..k], cursor, last) && rows[k] != last + 1
      ensures !Unbroken(rows, cursor)
    {
      UnbrokenIsRead(rows, k, cursor, last);
    }

    lemma TailSnoc(before: seq<Event>, n: nat, e: Event)
      requires n <= |before|
      ensures (before + [e])[n..] == before[n..] + [e] && (before + [e])[..n] == before[..n]
    {
    }

    /** The successor of the greatest sequence wraps to 0, which no row above a cursor is. */
    lemma SuccessorIs(row: Seq64, last: Seq64)
      requires row > 0
      ensures row == WrappingSucc(last) <==> row == last + 1
    {
    }

    lemma AcceptedNext(p: Progress, q: Seq64)
      requires p.observed && q == p.last + 1 && q <= p.frontier && p.floor <= q
      ensures Advance(p, Accepted(q)) == Some(p.(last := q))
    {
    }

    /** Observes the runtime and jumps to the retention floor when the cursor is below it. */
    method ObserveAndJump(env: Environment, i: nat, ghost p: Progress, cursor: Seq64)
        returns (next: Seq64, frontier: Seq64, err: Option<Error>)
      requires At(p, cursor) && !Walk(p, events).value.observed
      modifies `events
      ensures old(events) <= events
      ensures Walk(p, events).Some? && cursor <= next && (err.None? ==> Walk(p, events).value.observed)
      ensures err.None? ==>
        && At(p, next) && Walk(p, events).value.frontier == frontier && Walk(p, events).value.floor <= Next(next)
        && env.state(i).Some? && frontier == env.state(i).value.committed
        && Observations(events) == Observations(old(events)) + 1
        // It jumps exactly over what is reported as hidden, and a report of 0 hides nothing.
        && events[|old(events)|..] == [Observed(env.state(i).value)]
             + (if cursor + 1 < env.state(i).value.minAvailable then [Jumped(next)] else [])
        && next == (if cursor + 1 < env.state(i).value.minAvailable then env.state(i).value.minAvailable - 1
          else cursor)
      ensures Observations(old(events)) <= Observations(events) <= Observations(old(events)) + 1
      ensures err.None? <==>
        env.state(i).Some? && (cursor + 1 < env.state(i).value.minAvailable ==> env.advanceDurable(i))
      ensures AllGranted(env, i, events[|old(events)|..])
    {
      next, frontier, err := cursor, 0, None;
      ghost var start, before := Walk(p, events).value, events;
      hide *;
      StandsAt(p, cursor);
      NoneGranted(env, i, before);
      if env.state(i).None? {
        return next, frontier, Some(LogError);
      }
      var state := env.state(i).value;
      Record(p, Observed(state));
      ObservedNext(start, state, cursor);
      ObservationGranted(env, i, before, state);
      frontier := state.committed;
      var minAvailable := NormalizeMinAvailable(state.minAvailable);
      if Next(cursor) < minAvailable {
        if !env.advanceDurable(i) {
          return next, frontier, Some(LogError);
        }
        next := minAvailable - 1;
        Record(p, Jumped(next));
        JumpedNext(start, state, cursor);
        JumpGranted(env, i, before, state, next);
      }
      StandsAt(p, next);
    }

    lemma StandsAt(p: Progress, cursor: Seq64)
      ensures At(p, cursor)
        <==> Walk(p, events).Some? && Walk(p, events).value.cursor == Walk(p, events).value.last == cursor
    {
    }

    /** After an observation; the floor hides something exactly when it is reported above the next sequence. */
    lemma ObservedNext(p: Progress, state: ReplayState, cursor: Seq64)
      requires p.cursor == p.last == cursor && !p.observed
      ensures Advance(p, Observed(state))
        == Some(Progress(cursor, cursor, state.committed, NormalizeMinAvailable(state.minAvailable), true))
      ensures Next(cursor) < NormalizeMinAvailable(state.minAvailable) <==> cursor + 1 < state.minAvailable
    {
    }

    lemma JumpedNext(p: Progress, state: ReplayState, cursor: Seq64)
      requires cursor + 1 < state.minAvailable && p.cursor == p.last == cursor
      ensures var t := state.minAvailable - 1; var floor := NormalizeMinAvailable(state.minAvailable);
        && floor == state.minAvailable <= Next(t)
        && Advance(Progress(cursor, cursor, state.committed, floor, true), Jumped(t))
           == Some(Progress(t, t, state.committed, floor, true))
    {
    }

    lemma NoneGranted(env: Environment, i: nat, before: seq<Event>)
      ensures before <= before && AllGranted(env, i, before[|before|..])
    {
    }

    lemma ObservationGranted(env: Environment, i: nat, before: seq<Event>, state: ReplayState)
      requires env.state(i) == Some(state)
      ensures var events := before + [Observed(state)];
        before <= events && events[|before|..] == [Observed(state)] && AllGranted(env, i, events[|before|..])
      ensures Observed(state).Observed?
    {
    }

    lemma JumpGranted(env: Environment, i: nat, before: seq<Event>, state: ReplayState, target: Seq64)
      requires env.state(i) == Some(state) && env.advanceDurable(i)
      ensures var events := before + [Observed(state)] + [Jumped(target)];
        && before <= events && events[|before|..] == [Observed(state)] + [Jumped(target)]
        && AllGranted(env, i, events[|before|..])
    {
    }

    /**
     One iteration from `cursor`: observe, jump to the floor, deliver one batch and store the
     new cursor. `more` asks for another iteration.
     */
    method ReplayIteration(env: Environment, i: nat, ghost p: Progress, ghost steady: Seq64, cursor: Seq64)
        returns (next: Seq64, lag: Option<Seq64>, err: Option<Error>, more: bool)
      requires 0 < batchSize && At(p, cursor) && !Walk(p, events).value.observed
      modifies `events
      ensures Walk(p, events).Some?
      ensures Observations(old(events)) <= Observations(events) <= Observations(old(events)) + 1 && cursor <= next
      ensures err.None? ==> At(p, next) && lag == Some(Lag(next, Walk(p, events).value.frontier))
      ensures err.None? ==> Observations(events) == Observations(old(events)) + 1
      ensures more ==> err.None? && cursor < next && !Walk(p, events).value.observed
      ensures more && Steady(env, steady, batchSize) ==>
        cursor < steady && (steady <= next || cursor + batchSize <= next)
      ensures err.None? && !more && Steady(env, steady, batchSize) && Uncut(env, steady, batchSize) ==> lag == Some(0)
      ensures old(events) <= events && AllGranted(env, i, events[|old(events)|..])
      ensures Works(env, i) ==> err.None?
    {
      more, lag := false, None;
      AllWork(env, i);
      hide AllGranted, Works, Observations, Consecutive, Granted, Taken, Steady, Uncut, Unbroken;
      var frontier;
      next, frontier, err := ObserveAndJump(env, i, p, cursor);
      if err.Some? {
        return;
      }
      lag := Some(Lag(next, frontier));
      if frontier == 0 || frontier <= next {
        return;
      }
      var startSeq := Next(next);
      if env.load(i, startSeq).None? {
        err := Some(LogError);
        return;
      }
      var rows := env.load(i, startSeq).value;
      SteadyRows(env, steady, i, next, rows);
      if rows == [] {
        return;
      }
      var last;
      ghost var read, observed := 0, events;
      last, err, read := SubmitBatch(env, i, rows, p, next, frontier);
      BatchGranted(env, i, startSeq, old(events), observed, events, read);
      BatchWorks(env, i, next, rows, read, err);
      if err.Some? || last == next {
        return;
      }
      if !env.store(i) {
        err := Some(LogError);
        return;
      }
      StoreGranted(env, i, events[|old(events)|..], last);
      TailSnoc(events, |old(events)|, Stored(last));
      Record(p, Stored(last));
      next := last;
      lag := Some(Lag(next, frontier));
      more := |rows| >= batchSize;
    }

    /** What a steady log answers to a read behind the cursor, below the frontier. */
    lemma SteadyRows(env: Environment, steady: Seq64, i: nat, cursor: Seq64, rows: seq<Seq64>)
      requires 0 < batchSize && cursor < MAX_SEQ && env.load(i, cursor + 1) == Some(rows)
      requires env.state(i).Some? && cursor < env.state(i).value.committed
      ensures Steady(env, steady, batchSize) ==>
        env.state(i).value.committed == steady && |rows| <= batchSize && Unbroken(rows, cursor)
      ensures Steady(env, steady, batchSize) && Uncut(env, steady, batchSize) && |rows| < batchSize ==>
        steady <= cursor + |rows| && rows != []
    {
      var s: Seq64 := cursor + 1;
      assert env.load(i, s) == Some(rows);
    }

    lemma BatchWorks(env: Environment, i: nat, cursor: Seq64, rows: seq<Seq64>, read: nat, err: Option<Error>)
      requires cursor < MAX_SEQ && env.load(i, cursor + 1) == Some(rows) && read <= |rows| && err != Some(LogError)
      requires Unbroken(rows, cursor) ==> err != Some(CorruptState)
      requires err == Some(DeliveryError) ==> !env.deliver(i, read)
      requires err == Some(Cancelled) ==> !env.live(i, read)
      ensures Works(env, i) ==> err.None?
    {
      ErrorCases(err);
      if Works(env, i) {
        var s: Seq64 := cursor + 1;
        assert env.load(i, s).Some? && forall j | 0 <= j < |rows| :: rows[j] == s + j;
        assert env.live(i, read) && env.deliver(i, read) && Unbroken(rows, cursor);
      }
    }

    lemma ErrorCases(err: Option<Error>)
      ensures err in {None, Some(LogError), Some(DeliveryError), Some(Cancelled), Some(CorruptState)}
    {
      if err.Some? {
        match err.value
        case LogError =>
        case DeliveryError =>
        case Cancelled =>
        case CorruptState =>
      }
    }

    lemma AllWork(env: Environment, i: nat)
      ensures Works(env, i) ==> env.state(i).Some? && env.advanceDurable(i) && env.store(i)
      ensures Works(env, i) ==> forall s: Seq64 :: env.load(i, s).Some?
    {
    }

    lemma StoreGranted(env: Environment, i: nat, before: seq<Event>, q: Seq64)
      requires AllGranted(env, i, before) && env.store(i)
      ensures AllGranted(env, i, before + [Stored(q)])
    {
    }

    lemma GrantedMore(env: Environment, i: nat, before: seq<Event>, after: seq<Event>)
      requires before <= after && AllGranted(env, i, after[|before|..])
      requires forall e :: e in before ==> exists j: nat :: Granted(env, j, e)
      ensures forall e :: e in after ==> exists j: nat :: Granted(env, j, e)
    {
      assert after == before + after[|before|..];
      hide Granted;
    }

    /** What one batch adds to the trace is granted when every row it took was. */
    lemma BatchGranted(env: Environment, i: nat, s: Seq64, start: seq<Event>, before: seq<Event>, after: seq<Event>,
        read: nat)
      requires env.load(i, s).Some? && read <= |env.load(i, s).value| && start <= before <= after
      requires AllGranted(env, i, before[|start|..])
      requires TakenOnly(env, i, env.load(i, s).value, read, after[|before|..])
      ensures AllGranted(env, i, after[|start|..])
    {
      assert after[|start|..] == before[|start|..] + after[|before|..];
      forall e | e in after[|before|..] ensures Granted(env, i, e) {
        var k: nat :| k < read && e == Accepted(env.load(i, s).value[k]) && env.live(i, k) && env.deliver(i, k);
        assert Taken(env, i, s, k, e.q);
      }
    }

    /**
     One pass. Its trace is disciplined; a normal return reports the distance between the
     cursor and the frontier it observed last. If the frontier stays at C, a pass from cursor c
     makes at most (C - c) / batchSize + 2 iterations, and leaves no lag when no batch is cut.
     */
    method ReplayChannel(env: Environment, ghost steady: Seq64) returns (lag: Seq64, err: Option<Error>)
      requires 0 < batchSize
      modifies `events
      ensures env.cursor.None? ==> err.Some? && events == []
      ensures Walk(StartAt(CursorOf(env)), events).Some?
      // A pass starts behind the stored cursor, or at the beginning when no row is stored.
      ensures env.cursor.Some? ==>
        var c := if env.cursor.value.Some? then env.cursor.value.value else 0;
        Walk(Progress(c, c, 0, 1, false), events).Some?
      ensures err.None? ==>
        var r := Walk(StartAt(CursorOf(env)), events).value; r.last == r.cursor && lag == Lag(r.cursor, r.frontier)
      ensures Steady(env, steady, batchSize) && Observations(events) > 2 ==>
        (Observations(events) - 2) * batchSize <= Lag(CursorOf(env), steady)
      ensures Steady(env, steady, batchSize) && Uncut(env, steady, batchSize) && err.None? ==> lag == 0
      // Nothing happens that the outside did not agree to, and a pass fails only when a call does or a row is missing.
      ensures forall e :: e in events ==> exists i: nat :: Granted(env, i, e)
      ensures env.cursor.Some? && (forall i: nat :: Works(env, i)) ==> err.None?
    {
      events := [];
      StartOfPass(CursorOf(env));
      if env.cursor.None? {
        return 0, Some(LogError);
      }
      hide Steady, Uncut, Works, Granted, AllGranted, Observations, Walk, Advance;
      var cursor: Seq64 := CursorOf(env);
      ghost var p := StartAt(cursor);
      lag, err := 0, None;
      var i := 0;
      var more := true;
      while more
        invariant err.None? && At(p, cursor) && p.cursor <= cursor && (more ==> !Walk(p, events).value.observed)
        invariant more || lag == Lag(cursor, Walk(p, events).value.frontier)
        invariant Observations(events) == i
        invariant forall e :: e in events ==> exists j: nat :: Granted(env, j, e)
        invariant Steady(env, steady, batchSize) ==>
          && (i > 1 ==> Span(i - 1, batchSize) <= Lag(p.cursor, steady) + if more then 0 else batchSize)
          && (more ==> steady <= cursor || Span(i, batchSize) <= cursor - p.cursor)
        invariant Steady(env, steady, batchSize) && Uncut(env, steady, batchSize) && !more ==> lag == 0
        decreases more, MAX_SEQ - cursor
      {
        ghost var before := events;
        var next, newLag, itErr, again := ReplayIteration(env, i, p, steady, cursor);
        GrantedMore(env, i, before, events);
        if newLag.Some? {
          lag := newLag.value;
        }
        if itErr.Some? {
          SpanFits(Observations(events), batchSize, Lag(p.cursor, steady));
          return lag, itErr;
        }
        cursor, i, more := next, i + 1, again;
      }
      SpanFits(i, batchSize, Lag(p.cursor, steady));
    }
  }

  lemma StartOfPass(cursor: Seq64)
    ensures Walk(StartAt(cursor), []) == Some(Progress(cursor, cursor, 0, 1, false)) && Observations([]) == 0
  {
  }

  /** How far n full batches advance a cursor. */
  function Span(n: nat, batchSize: nat): nat {
    if n == 0 then 0 else Span(n - 1, batchSize) + batchSize
  }

  /** The batches of all but two iterations fit into the lag. */
  lemma SpanFits(iterations: nat, batchSize: nat, lag: Seq64)
    ensures iterations > 2 && Span(iterations - 2, batchSize) <= lag ==> (iterations - 2) * batchSize <= lag
  {
    if iterations > 2 {
      SpanIsProduct(iterations - 2, batchSize);
    }
  }

  lemma {:induction false} SpanIsProduct(n: nat, batchSize: nat)
    ensures Span(n, batchSize) == n * batchSize
  {
    if n > 0 {
      SpanIsProduct(n - 1, batchSize);
      assert n * batchSize == (n - 1) * batchSize + batchSize;
    }
  }

  /** A missing cursor row starts the pass at 0. */
  function CursorOf(env: Environment): Seq64 {
    if env.cursor.Some? && env.cursor.value.Some? then env.cursor.value.value else 0
  }
}
