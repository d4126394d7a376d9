/**
 The batching acknowledgement notifier (internal/app/delivery_ack_batcher.go:58-181). Its
 state keeps, beside the pending batches, the history of what was enqueued, cancelled,
 detached and sent. A step is one critical section, or one send of a detached batch; timers
 may fire at any time, also for a batch that they were not started for.
 */
module AckBatcher {
  import opened Routes
  import opened Sequences

  type Command = nat

  /** A waiter is identified by its object; the identity counts the waiters created before it. */
  datatype Waiter = Waiter(id: nat, command: Command)

  /** The place of a detached batch: its node and its number among the node's detached batches. */
  datatype Place = Place(node: nat, index: nat)

  datatype History = History(
    owner: seq<nat>,
    enqueued: map<nat, seq<Waiter>>,
    cancelled: set<nat>,
    detached: map<nat, seq<seq<Waiter>>>,
    sent: set<Place>,
    written: multiset<nat>)

  datatype State = State(closed: bool, batches: map<nat, seq<Waiter>>, hist: History)

  datatype Step =
    | Enqueue(node: nat, command: Command)
    | Flush(node: nat)
    | Cancel(node: nat, id: nat)
    | Close
    | Send(place: Place)

  function Get<T>(m: map<nat, seq<T>>, node: nat): seq<T> {
    if node in m then m[node] else []
  }

  function Init(): State {
    State(false, map[], History([], map[], {}, map[], {}, multiset{}))
  }

  /** Takes the node's batch out of the pending ones; it becomes the node's next detached batch. */
  function Detach(s: State, node: nat): State {
    if node !in s.batches then s
    else
      s.(batches := s.batches - {node},
         hist := s.hist.(detached := s.hist.detached[node := Get(s.hist.detached, node) + [s.batches[node]]]))
  }

  function DetachAll(s: State): State {
    s.(batches := map[],
       hist := s.hist.(detached :=
         map n | n in s.batches.Keys + s.hist.detached.Keys ::
           Get(s.hist.detached, n) + if n in s.batches then [s.batches[n]] else []))
  }

  function Ids(waiters: seq<Waiter>): seq<nat> {
    if waiters == [] then [] else Ids(waiters[..|waiters| - 1]) + [waiters[|waiters| - 1].id]
  }

  function WithoutId(waiters: seq<Waiter>, id: nat): seq<Waiter> {
    if waiters == [] then []
    else
      var n := |waiters| - 1;
      WithoutId(waiters[..n], id) + if waiters[n].id == id then [] else [waiters[n]]
  }

  predicate HasId(waiters: seq<Waiter>, id: nat) {
    exists i :: 0 <= i < |waiters| && waiters[i].id == id
  }

  function Enqueued(s: State, node: nat, command: Command): (r: State)
    ensures node in r.batches
  {
    var w := Waiter(|s.hist.owner|, command);
    s.(batches := s.batches[node := Get(s.batches, node) + [w]],
       hist := s.hist.(owner := s.hist.owner + [node],
         enqueued := s.hist.enqueued[node := Get(s.hist.enqueued, node) + [w]]))
  }

  /** A cancelled waiter leaves its batch; a batch that becomes empty is dropped. */
  function Cancelled(s: State, node: nat, id: nat): State
    requires node in s.batches
  {
    var left := WithoutId(s.batches[node], id);
    s.(batches := if left == [] then s.batches - {node} else s.batches[node := left],
       hist := s.hist.(cancelled := s.hist.cancelled + {id}))
  }

  predicate Unsent(s: State, p: Place) {
    p.node in s.hist.detached && p.index < |s.hist.detached[p.node]| && p !in s.hist.sent
  }

  function Sent(s: State, p: Place): State
    requires Unsent(s, p)
  {
    s.(hist :=
      s.hist.(sent := s.hist.sent + {p}, written := s.hist.written + multiset(Ids(s.hist.detached[p.node][p.index]))))
  }

  /** A step that is not enabled changes nothing. */
  function Do(maxBatch: nat, s: State, step: Step): State {
    match step
    case Enqueue(node, command) =>
      if s.closed then s
      else
        var s' := Enqueued(s, node, command);
        if |s'.batches[node]| >= maxBatch then Detach(s', node) else s'
    case Flush(node) => Detach(s, node)
    case Cancel(node, id) => if node in s.batches && HasId(s.batches[node], id) then Cancelled(s, node, id) else s
    case Close => DetachAll(s).(closed := true)
    case Send(p) => if Unsent(s, p) then Sent(s, p) else s
  }

  // ---------------------------------------------------------------- ids and order

  ghost predicate AscendingIds(waiters: seq<Waiter>) {
    forall i, j | 0 <= i < j < |waiters| :: waiters[i].id < waiters[j].id
  }

  /** The waiters that were not cancelled, in order. */
  function Live(waiters: seq<Waiter>, cancelled: set<nat>): seq<Waiter> {
    if waiters == [] then []
    else
      var n := |waiters| - 1;
      Live(waiters[..n], cancelled) + if waiters[n].id in cancelled then [] else [waiters[n]]
  }

  lemma {:induction false} LiveElements(waiters: seq<Waiter>, cancelled: set<nat>)
    ensures forall w :: w in Live(waiters, cancelled) <==> w in waiters && w.id !in cancelled
  {
    if waiters != [] {
      var init, last := waiters[..|waiters| - 1], waiters[|waiters| - 1];
      LiveElements(init, cancelled);
      assert waiters == init + [last];
    }
  }

  lemma {:induction false} LiveMembers(waiters: seq<Waiter>, cancelled: set<nat>)
    requires AscendingIds(waiters)
    ensures forall w :: w in Live(waiters, cancelled) <==> w in waiters && w.id !in cancelled
    ensures AscendingIds(Live(waiters, cancelled))
  {
    LiveElements(waiters, cancelled);
    if waiters != [] {
      var init, last := waiters[..|waiters| - 1], waiters[|waiters| - 1];
      assert waiters == init + [last];
      AscendingApart(init, [last]);
      LiveMembers(init, cancelled);
      if last.id !in cancelled {
        AscendingJoin(Live(init, cancelled), last);
      }
    }
  }

  lemma AscendingJoin(a: seq<Waiter>, w: Waiter)
    requires AscendingIds(a) && forall v :: v in a ==> v.id < w.id
    ensures AscendingIds(a + [w])
  {
  }

  /** Cancelling one more waiter takes it out of the live ones. */
  lemma {:induction false} LiveWithout(waiters: seq<Waiter>, cancelled: set<nat>, id: nat)
    ensures Live(waiters, cancelled + {id}) == WithoutId(Live(waiters, cancelled), id)
  {
    if waiters != [] {
      var init, last := waiters[..|waiters| - 1], waiters[|waiters| - 1];
      LiveWithout(init, cancelled, id);
      WithoutConcat(Live(init, cancelled), if last.id in cancelled then [] else [last], id);
      assert last.id !in cancelled ==>
        WithoutId([last], id) == WithoutId([], id) + if last.id == id then [] else [last] by {
        assert [last][..0] == [];
      }
    }
  }

  lemma {:induction false} WithoutConcat(a: seq<Waiter>, b: seq<Waiter>, id: nat)
    ensures WithoutId(a + b, id) == WithoutId(a, id) + WithoutId(b, id)
    decreases |b|
  {
    if b == [] {
      assert a + b == a;
    } else {
      var init := b[..|b| - 1];
      assert (a + b)[..|a + b| - 1] == a + init && (a + b)[|a + b| - 1] == b[|b| - 1];
      WithoutConcat(a, init, id);
      Regroup(WithoutId(a, id), WithoutId(init, id), if b[|b| - 1].id == id then [] else [b[|b| - 1]]);
    }
  }

  lemma {:induction false} WithoutAbsent(a: seq<Waiter>, id: nat)
    requires forall w :: w in a ==> w.id != id
    ensures WithoutId(a, id) == a
  {
    if a != [] {
      LastApart(a);
      WithoutAbsent(a[..|a| - 1], id);
    }
  }

  lemma {:induction false} WithoutShorter(a: seq<Waiter>, id: nat)
    ensures |WithoutId(a, id)| <= |a| && forall w :: w in WithoutId(a, id) ==> w in a && w.id != id
  {
    if a != [] {
      WithoutShorter(a[..|a| - 1], id);
    }
  }

  /** Nothing of what is listed before has the id of a waiter listed later. */
  lemma AscendingApart(a: seq<Waiter>, b: seq<Waiter>)
    requires AscendingIds(a + b)
    ensures AscendingIds(a) && AscendingIds(b)
    ensures forall v, w :: v in a && w in b ==> v.id < w.id
  {
    forall i, j | 0 <= i < j < |a| ensures a[i].id < a[j].id {
      assert (a + b)[i].id < (a + b)[j].id;
    }
    forall i, j | 0 <= i < j < |b| ensures b[i].id < b[j].id {
      assert (a + b)[|a| + i].id < (a + b)[|a| + j].id;
    }
    forall v, w | v in a && w in b ensures v.id < w.id {
      var i :| 0 <= i < |a| && a[i] == v;
      var j :| 0 <= j < |b| && b[j] == w;
      assert (a + b)[i].id < (a + b)[|a| + j].id;
    }
  }

  // ---------------------------------------------------------------- what every step keeps

  /** One node: the detached batches in order, then the pending one, are what was enqueued and not cancelled. */
  ghost predicate NodeInv(maxBatch: nat, enqueued: seq<Waiter>, cancelled: set<nat>, detached: seq<seq<Waiter>>,
      pending: seq<Waiter>) {
    && Flatten(detached) + pending == Live(enqueued, cancelled)
    && AscendingIds(enqueued)
    && |pending| < maxBatch
    && forall k | 0 <= k < |detached| :: 0 < |detached[k]| <= maxBatch
  }

  ghost predicate OwnIds(owner: seq<nat>, node: nat, enqueued: seq<Waiter>) {
    forall w :: w in enqueued ==> w.id < |owner| && owner[w.id] == node
  }

  ghost predicate NodesInv(maxBatch: nat, s: State) {
    && (forall n: nat ::
      NodeInv(maxBatch, Get(s.hist.enqueued, n), s.hist.cancelled, Get(s.hist.detached, n), Get(s.batches, n)))
    && (forall n: nat :: OwnIds(s.hist.owner, n, Get(s.hist.enqueued, n)))
    && (forall n :: n in s.batches ==> s.batches[n] != [])
    && (forall id :: id in s.hist.cancelled ==> id < |s.hist.owner|)
    && (s.closed ==> s.batches == map[])
  }

  lemma DetachKeepsNode(maxBatch: nat, enqueued: seq<Waiter>, cancelled: set<nat>, detached: seq<seq<Waiter>>,
      pending: seq<Waiter>)
    requires pending != [] && |pending| <= maxBatch
    requires Flatten(detached) + pending == Live(enqueued, cancelled) && AscendingIds(enqueued)
    requires forall k | 0 <= k < |detached| :: 0 < |detached[k]| <= maxBatch
    ensures NodeInv(maxBatch, enqueued, cancelled, detached + [pending], [])
  {
    FlattenConcat(detached, [pending]);
    assert [pending][1..] == [];
    assert Flatten([pending]) == pending + [];
    assert Flatten(detached + [pending]) + [] == Flatten(detached) + pending;
  }

  lemma EnqueueKeepsNode(maxBatch: nat, enqueued: seq<Waiter>, cancelled: set<nat>, detached: seq<seq<Waiter>>,
      pending: seq<Waiter>, w: Waiter)
    requires NodeInv(maxBatch, enqueued, cancelled, detached, pending)
    requires w.id !in cancelled && forall v :: v in enqueued ==> v.id < w.id
    ensures Flatten(detached) + (pending + [w]) == Live(enqueued + [w], cancelled) && AscendingIds(enqueued + [w])
  {
    hide Flatten;
    assert (enqueued + [w])[..|enqueued|] == enqueued;
    assert Flatten(detached) + (pending + [w]) == (Flatten(detached) + pending) + [w];
  }

  lemma CancelKeepsNode(maxBatch: nat, enqueued: seq<Waiter>, cancelled: set<nat>, detached: seq<seq<Waiter>>,
      pending: seq<Waiter>, id: nat)
    requires NodeInv(maxBatch, enqueued, cancelled, detached, pending) && HasId(pending, id)
    ensures NodeInv(maxBatch, enqueued, cancelled + {id}, detached, WithoutId(pending, id))
  {
    NotDetached(maxBatch, enqueued, cancelled, detached, pending, id);
    LiveWithout(enqueued, cancelled, id);
    WithoutConcat(Flatten(detached), pending, id);
    WithoutAbsent(Flatten(detached), id);
    WithoutShorter(pending, id);
    hide Flatten, Live, WithoutId, AscendingIds, HasId;
  }

  /** A pending id was not detached. */
  lemma NotDetached(maxBatch: nat, enqueued: seq<Waiter>, cancelled: set<nat>, detached: seq<seq<Waiter>>,
      pending: seq<Waiter>, id: nat)
    requires NodeInv(maxBatch, enqueued, cancelled, detached, pending) && HasId(pending, id)
    ensures forall w :: w in Flatten(detached) ==> w.id != id
  {
    LiveMembers(enqueued, cancelled);
    hide Flatten, Live;
    AscendingApart(Flatten(detached), pending);
    var i :| 0 <= i < |pending| && pending[i].id == id;
    assert pending[i] in pending;
  }

  /** A cancelled id of another node is no id of this one. */
  lemma CancelElsewhereKeepsNode(maxBatch: nat, enqueued: seq<Waiter>, cancelled: set<nat>,
      detached: seq<seq<Waiter>>, pending: seq<Waiter>, id: nat)
    requires NodeInv(maxBatch, enqueued, cancelled, detached, pending)
    requires forall w :: w in enqueued ==> w.id != id
    ensures NodeInv(maxBatch, enqueued, cancelled + {id}, detached, pending)
  {
    LiveWithout(enqueued, cancelled, id);
    LiveMembers(enqueued, cancelled);
    WithoutAbsent(Live(enqueued, cancelled), id);
  }

  lemma PendingIsEnqueued(maxBatch: nat, enqueued: seq<Waiter>, cancelled: set<nat>, detached: seq<seq<Waiter>>,
      pending: seq<Waiter>, w: Waiter)
    requires NodeInv(maxBatch, enqueued, cancelled, detached, pending) && w in pending
    ensures w in enqueued && w.id !in cancelled
  {
    LiveMembers(enqueued, cancelled);
    assert w in Flatten(detached) + pending;
  }

  /** A waiter joins its node's batch, and the batch is detached when it is full. */
  lemma EnqueueOrDetach(maxBatch: nat, enqueued: seq<Waiter>, cancelled: set<nat>, detached: seq<seq<Waiter>>,
      pending: seq<Waiter>, w: Waiter)
    requires NodeInv(maxBatch, enqueued, cancelled, detached, pending) && maxBatch > 1
    requires w.id !in cancelled && forall v :: v in enqueued ==> v.id < w.id
    ensures if |pending + [w]| >= maxBatch then NodeInv(maxBatch, enqueued + [w], cancelled, detached + [pending + [w]],
      [])
            else NodeInv(maxBatch, enqueued + [w], cancelled, detached, pending + [w])
  {
    EnqueueKeepsNode(maxBatch, enqueued, cancelled, detached, pending, w);
    if |pending| + 1 >= maxBatch {
      DetachKeepsNode(maxBatch, enqueued + [w], cancelled, detached, pending + [w]);
    }
    hide Flatten, Live, AscendingIds;
  }

  /** What an accepted waiter changes, node by node. */
  ghost predicate Joined(maxBatch: nat, s: State, s': State, node: nat, w: Waiter) {
    && (forall n: nat | n != node ::
          && Get(s'.hist.enqueued, n) == Get(s.hist.enqueued, n)
          && Get(s'.hist.detached, n) == Get(s.hist.detached, n) && Get(s'.batches, n) == Get(s.batches, n))
    && w.id == |s.hist.owner| && Get(s'.hist.enqueued, node) == Get(s.hist.enqueued, node) + [w]
    && s'.hist.cancelled == s.hist.cancelled && s'.hist.owner == s.hist.owner + [node]
    && if |Get(s.batches, node) + [w]| >= maxBatch
       then
         && Get(s'.hist.detached, node) == Get(s.hist.detached, node) + [Get(s.batches, node) + [w]]
         && Get(s'.batches, node) == []
       else
         && Get(s'.hist.detached, node) == Get(s.hist.detached, node)
         && Get(s'.batches, node) == Get(s.batches, node) + [w]
  }

  lemma JoinedKeepsNode(maxBatch: nat, s: State, s': State, node: nat, w: Waiter, n: nat)
    requires maxBatch > 1 && NodesInv(maxBatch, s) && Joined(maxBatch, s, s', node, w)
    ensures NodeInv(maxBatch, Get(s'.hist.enqueued, n), s'.hist.cancelled, Get(s'.hist.detached, n), Get(s'.batches, n))
  {
    hide NodeInv, Get;
    assert NodeInv(maxBatch, Get(s.hist.enqueued, n), s.hist.cancelled, Get(s.hist.detached, n), Get(s.batches, n));
    if n == node {
      assert OwnIds(s.hist.owner, node, Get(s.hist.enqueued, node));
      EnqueueOrDetach(maxBatch, Get(s.hist.enqueued, node), s.hist.cancelled, Get(s.hist.detached, node),
        Get(s.batches, node), w);
    }
  }

  lemma JoinedKeepsIds(maxBatch: nat, s: State, s': State, node: nat, w: Waiter, n: nat)
    requires NodesInv(maxBatch, s) && Joined(maxBatch, s, s', node, w)
    ensures OwnIds(s'.hist.owner, n, Get(s'.hist.enqueued, n))
  {
    hide NodeInv, Get;
    assert OwnIds(s.hist.owner, n, Get(s.hist.enqueued, n));
  }

  lemma EnqueueKeeps(maxBatch: nat, s: State, node: nat, command: Command)
    requires maxBatch > 1 && NodesInv(maxBatch, s) && !s.closed
    ensures NodesInv(maxBatch, Do(maxBatch, s, Enqueue(node, command)))
  {
    hide NodeInv, OwnIds;
    var s', w := Do(maxBatch, s, Enqueue(node, command)), Waiter(|s.hist.owner|, command);
    assert Joined(maxBatch, s, s', node, w);
    assert forall n :: n in s'.batches ==> s'.batches[n] != [];
    hide Joined, Do, Get;
    forall n: nat
      ensures NodeInv(maxBatch, Get(s'.hist.enqueued, n), s'.hist.cancelled, Get(s'.hist.detached, n),
        Get(s'.batches, n))
      ensures OwnIds(s'.hist.owner, n, Get(s'.hist.enqueued, n))
    {
      JoinedKeepsNode(maxBatch, s, s', node, w, n);
      JoinedKeepsIds(maxBatch, s, s', node, w, n);
    }
    JoinedClosed(maxBatch, s, node, command);
  }

  lemma JoinedClosed(maxBatch: nat, s: State, node: nat, command: Command)
    requires !s.closed
    ensures var s' := Do(maxBatch, s, Enqueue(node, command));
      !s'.closed && s'.hist.cancelled == s.hist.cancelled && |s'.hist.owner| == |s.hist.owner| + 1
  {
  }

  lemma DetachKeepsAt(maxBatch: nat, s: State, node: nat, n: nat)
    requires NodesInv(maxBatch, s) && node in s.batches
    ensures var t := Detach(s, node);
      NodeInv(maxBatch, Get(t.hist.enqueued, n), t.hist.cancelled, Get(t.hist.detached, n), Get(t.batches, n))
  {
    assert NodeInv(maxBatch, Get(s.hist.enqueued, n), s.hist.cancelled, Get(s.hist.detached, n), Get(s.batches, n));
    if n == node {
      DetachKeepsNode(maxBatch, Get(s.hist.enqueued, n), s.hist.cancelled, Get(s.hist.detached, n), s.batches[n]);
    }
    hide NodeInv;
  }

  lemma DetachKeeps(maxBatch: nat, s: State, node: nat)
    requires NodesInv(maxBatch, s)
    ensures NodesInv(maxBatch, Detach(s, node))
  {
    if node in s.batches {
      hide NodeInv, Get;
      var t := Detach(s, node);
      forall n: nat
        ensures NodeInv(maxBatch, Get(t.hist.enqueued, n), t.hist.cancelled, Get(t.hist.detached, n), Get(t.batches, n))
      {
        DetachKeepsAt(maxBatch, s, node, n);
      }
    }
  }

  lemma DetachAllKeeps(maxBatch: nat, s: State)
    requires NodesInv(maxBatch, s)
    ensures NodesInv(maxBatch, DetachAll(s).(closed := true))
  {
    var s' := DetachAll(s).(closed := true);
    hide NodeInv;
    forall n: nat ensures NodeInv(maxBatch, Get(s'.hist.enqueued, n), s'.hist.cancelled, Get(s'.hist.detached, n),
      Get(s'.batches, n)) {
      var e, d, p := Get(s.hist.enqueued, n), Get(s.hist.detached, n), Get(s.batches, n);
      assert NodeInv(maxBatch, e, s.hist.cancelled, d, p);
      if n in s.batches {
        FromNodeInv(maxBatch, e, s.hist.cancelled, d, p);
        DetachKeepsNode(maxBatch, e, s.hist.cancelled, d, p);
      } else {
        assert Get(s'.hist.detached, n) == d by {
          assert d + [] == d;
        }
      }
    }
  }

  lemma FromNodeInv(maxBatch: nat, enqueued: seq<Waiter>, cancelled: set<nat>, detached: seq<seq<Waiter>>,
      pending: seq<Waiter>)
    requires NodeInv(maxBatch, enqueued, cancelled, detached, pending)
    ensures Flatten(detached) + pending == Live(enqueued, cancelled) && AscendingIds(enqueued) && |pending| < maxBatch
    ensures forall k | 0 <= k < |detached| :: 0 < |detached[k]| <= maxBatch
  {
  }

  lemma CancelKeeps(maxBatch: nat, s: State, node: nat, id: nat)
    requires NodesInv(maxBatch, s) && node in s.batches && HasId(s.batches[node], id)
    ensures NodesInv(maxBatch, Cancelled(s, node, id))
  {
    var s' := Cancelled(s, node, id);
    var w :| w in s.batches[node] && w.id == id;
    PendingIsEnqueued(maxBatch, Get(s.hist.enqueued, node), s.hist.cancelled, Get(s.hist.detached, node),
      s.batches[node], w);
    hide NodeInv, WithoutId, HasId;
    forall n: nat ensures NodeInv(maxBatch, Get(s'.hist.enqueued, n), s'.hist.cancelled, Get(s'.hist.detached, n),
      Get(s'.batches, n)) {
      var e, d, p := Get(s.hist.enqueued, n), Get(s.hist.detached, n), Get(s.batches, n);
      assert NodeInv(maxBatch, e, s.hist.cancelled, d, p);
      if n == node {
        CancelKeepsNode(maxBatch, e, s.hist.cancelled, d, p, id);
      } else {
        CancelElsewhereKeepsNode(maxBatch, e, s.hist.cancelled, d, p, id);
      }
    }
  }

  lemma StepKeepsNodes(maxBatch: nat, s: State, step: Step)
    requires maxBatch > 1 && NodesInv(maxBatch, s)
    ensures NodesInv(maxBatch, Do(maxBatch, s, step))
  {
    match step {
      case Enqueue(node, command) =>
        if !s.closed {
          EnqueueKeeps(maxBatch, s, node, command);
        }
      case Flush(node) => DetachKeeps(maxBatch, s, node);
      case Cancel(node, id) =>
        if node in s.batches && HasId(s.batches[node], id) {
          CancelKeeps(maxBatch, s, node, id);
        }
      case Close => DetachAllKeeps(maxBatch, s);
      case Send(_) =>
    }
  }

  // ---------------------------------------------------------------- sending

  /** Each waiter of a sent batch was written once, every other waiter not at all. */
  ghost predicate SendInv(s: State) {
    && (forall p :: p in s.hist.sent ==> p.node in s.hist.detached && p.index < |s.hist.detached[p.node]|)
    && (forall n, k, w | n in s.hist.detached && 0 <= k < |s.hist.detached[n]| && w in s.hist.detached[n][k] ::
          s.hist.written[w.id] == if Place(n, k) in s.hist.sent then 1 else 0)
    && (forall n, w :: n in s.batches && w in s.batches[n] ==> s.hist.written[w.id] == 0)
    && (forall id: nat :: s.hist.written[id] <= 1 && (id in s.hist.written ==> id < |s.hist.owner|))
  }

  lemma HasIdLast(waiters: seq<Waiter>, id: nat)
    requires AscendingIds(waiters) && waiters != []
    ensures var init, last := waiters[..|waiters| - 1], waiters[|waiters| - 1];
      && AscendingIds(init) && (HasId(waiters, id) <==> HasId(init, id) || last.id == id)
      && !(HasId(init, id) && last.id == id)
  {
    var n := |waiters| - 1;
    assert forall i | 0 <= i < n :: waiters[..n][i] == waiters[i];
  }

  lemma {:induction false} IdsCount(waiters: seq<Waiter>, id: nat)
    requires AscendingIds(waiters)
    ensures multiset(Ids(waiters))[id] == if HasId(waiters, id) then 1 else 0
  {
    if waiters != [] {
      HasIdLast(waiters, id);
      hide AscendingIds, HasId;
      IdsCount(waiters[..|waiters| - 1], id);
    }
  }

  lemma {:induction false} BatchInFlatten(batches: seq<seq<Waiter>>, k: nat)
    requires k < |batches|
    ensures Flatten(batches) == Flatten(batches[..k]) + batches[k] + Flatten(batches[k + 1..])
  {
    assert batches == batches[..k] + ([batches[k]] + batches[k + 1..]);
    FlattenConcat(batches[..k], [batches[k]] + batches[k + 1..]);
    FlattenConcat([batches[k]], batches[k + 1..]);
    assert Flatten([batches[k]]) == batches[k] + Flatten([batches[k]][1..]);
  }

  lemma {:induction false} InFlatten(batches: seq<seq<Waiter>>, w: Waiter)
    ensures w in Flatten(batches) <==> exists k :: 0 <= k < |batches| && w in batches[k]
  {
    if batches != [] {
      InFlatten(batches[1..], w);
      if w in Flatten(batches[1..]) {
        var k :| 0 <= k < |batches[1..]| && w in batches[1..][k];
        assert w in batches[k + 1];
      }
      if exists k :: 0 <= k < |batches| && w in batches[k] {
        var k :| 0 <= k < |batches| && w in batches[k];
        assert k > 0 ==> w in batches[1..][k - 1];
      }
    }
  }

  /** Two detached batches of a node, or a detached and the pending one, have no id in common; each has distinct ids. */
  lemma BatchesApart(maxBatch: nat, enqueued: seq<Waiter>, cancelled: set<nat>, detached: seq<seq<Waiter>>,
      pending: seq<Waiter>, k: nat)
    requires NodeInv(maxBatch, enqueued, cancelled, detached, pending) && k < |detached|
    ensures AscendingIds(detached[k])
    ensures forall v, w :: v in detached[k] && w in pending ==> v.id != w.id
    ensures forall j, v, w | 0 <= j < |detached| && j != k && v in detached[k] && w in detached[j] :: v.id != w.id
    ensures forall v :: v in detached[k] ==> v in enqueued
  {
    LiveMembers(enqueued, cancelled);
    BatchInFlatten(detached, k);
    var before, after := Flatten(detached[..k]), Flatten(detached[k + 1..]);
    AscendingApart(Flatten(detached), pending);
    assert forall v :: v in detached[k] ==> v in Flatten(detached) + pending;
    hide Live;
    AscendingApart(before + detached[k], after);
    AscendingApart(before, detached[k]);
    forall j, v, w | 0 <= j < |detached| && j != k && v in detached[k] && w in detached[j] ensures v.id != w.id {
      if j < k {
        assert detached[j] == detached[..k][j];
        InFlatten(detached[..k], w);
      } else {
        assert detached[j] == detached[k + 1..][j - k - 1];
        InFlatten(detached[k + 1..], w);
      }
      assert v in before + detached[k];
    }
    forall v, w | v in detached[k] && w in pending ensures v.id != w.id {
      assert v in Flatten(detached);
    }
  }

  /** Waiters of different nodes have different ids. */
  lemma NodesApart(maxBatch: nat, s: State, n: nat, m: nat, v: Waiter, w: Waiter)
    requires NodesInv(maxBatch, s) && n != m
    requires v in Get(s.hist.enqueued, n) && w in Get(s.hist.enqueued, m)
    ensures v.id != w.id
  {
    assert OwnIds(s.hist.owner, n, Get(s.hist.enqueued, n)) && OwnIds(s.hist.owner, m, Get(s.hist.enqueued, m));
  }

  lemma DetachedIsEnqueued(maxBatch: nat, s: State, n: nat, k: nat, w: Waiter)
    requires NodesInv(maxBatch, s) && n in s.hist.detached && k < |s.hist.detached[n]| && w in s.hist.detached[n][k]
    ensures w in Get(s.hist.enqueued, n)
  {
    BatchesApart(maxBatch, Get(s.hist.enqueued, n), s.hist.cancelled, s.hist.detached[n], Get(s.batches, n), k);
  }

  /** A waiter outside the batch that is sent does not share an id with it. */
  lemma SentElsewhere(maxBatch: nat, s: State, p: Place, n: nat, k: nat, v: Waiter, w: Waiter)
    requires NodesInv(maxBatch, s) && p.node in s.hist.detached && p.index < |s.hist.detached[p.node]|
      && v in s.hist.detached[p.node][p.index]
    requires n in s.hist.detached && k < |s.hist.detached[n]| && w in s.hist.detached[n][k] && p != Place(n, k)
    ensures v.id != w.id
  {
    if n == p.node {
      BatchesApart(maxBatch, Get(s.hist.enqueued, n), s.hist.cancelled, s.hist.detached[n], Get(s.batches, n), p.index);
    } else {
      DetachedIsEnqueued(maxBatch, s, n, k, w);
      DetachedIsEnqueued(maxBatch, s, p.node, p.index, v);
      NodesApart(maxBatch, s, p.node, n, v, w);
    }
  }

  lemma SentPending(maxBatch: nat, s: State, p: Place, n: nat, v: Waiter, w: Waiter)
    requires NodesInv(maxBatch, s) && p.node in s.hist.detached && p.index < |s.hist.detached[p.node]|
      && v in s.hist.detached[p.node][p.index]
    requires n in s.batches && w in s.batches[n]
    ensures v.id != w.id
  {
    if n == p.node {
      BatchesApart(maxBatch, Get(s.hist.enqueued, n), s.hist.cancelled, s.hist.detached[n], s.batches[n], p.index);
    } else {
      PendingIsEnqueued(maxBatch, Get(s.hist.enqueued, n), s.hist.cancelled, Get(s.hist.detached, n), s.batches[n], w);
      DetachedIsEnqueued(maxBatch, s, p.node, p.index, v);
      NodesApart(maxBatch, s, p.node, n, v, w);
    }
  }

  /** The send adds one write for each id of its batch. */
  ghost predicate WritesBatch(s: State, s': State, p: Place)
    requires Unsent(s, p)
  {
    && s'.batches == s.batches && s'.hist.detached == s.hist.detached && s'.hist.owner == s.hist.owner
    && s'.hist.sent == s.hist.sent + {p}
    && forall id: nat ::
      s'.hist.written[id] == s.hist.written[id] + if HasId(s.hist.detached[p.node][p.index], id) then 1 else 0
  }

  lemma SentWritesBatch(maxBatch: nat, s: State, p: Place)
    requires NodesInv(maxBatch, s) && Unsent(s, p)
    ensures WritesBatch(s, Sent(s, p), p)
  {
    var batch, s' := s.hist.detached[p.node][p.index], Sent(s, p);
    BatchesApart(maxBatch, Get(s.hist.enqueued, p.node), s.hist.cancelled, s.hist.detached[p.node],
      Get(s.batches, p.node), p.index);
    hide NodesInv, NodeInv, Ids, HasId;
    forall id: nat ensures s'.hist.written[id] == s.hist.written[id] + if HasId(batch, id) then 1 else 0 {
      IdsCount(batch, id);
    }
  }

  lemma WriteIsOnce(maxBatch: nat, s: State, s': State, p: Place, n: nat, k: nat, w: Waiter)
    requires NodesInv(maxBatch, s) && SendInv(s) && Unsent(s, p) && WritesBatch(s, s', p)
    requires n in s.hist.detached && k < |s.hist.detached[n]| && w in s.hist.detached[n][k]
    ensures s'.hist.written[w.id] == if Place(n, k) in s'.hist.sent then 1 else 0
  {
    var batch := s.hist.detached[p.node][p.index];
    assert s.hist.written[w.id] == if Place(n, k) in s.hist.sent then 1 else 0;
    hide NodesInv, SendInv;
    if p == Place(n, k) {
      var i :| 0 <= i < |batch| && batch[i] == w;
      assert batch[i].id == w.id;
    } else if HasId(batch, w.id) {
      var i :| 0 <= i < |batch| && batch[i].id == w.id;
      SentElsewhere(maxBatch, s, p, n, k, batch[i], w);
    }
  }

  lemma PendingUnwritten(maxBatch: nat, s: State, s': State, p: Place, n: nat, w: Waiter)
    requires NodesInv(maxBatch, s) && SendInv(s) && Unsent(s, p) && WritesBatch(s, s', p) && n in s.batches
      && w in s.batches[n]
    ensures s'.hist.written[w.id] == 0
  {
    var batch := s.hist.detached[p.node][p.index];
    assert s.hist.written[w.id] == 0;
    hide NodesInv, SendInv;
    if HasId(batch, w.id) {
      var i :| 0 <= i < |batch| && batch[i].id == w.id;
      SentPending(maxBatch, s, p, n, batch[i], w);
    }
  }

  lemma WrittenIds(maxBatch: nat, s: State, s': State, p: Place, id: nat)
    requires NodesInv(maxBatch, s) && SendInv(s) && Unsent(s, p) && WritesBatch(s, s', p)
    ensures s'.hist.written[id] <= 1 && (id in s'.hist.written ==> id < |s'.hist.owner|)
  {
    var batch := s.hist.detached[p.node][p.index];
    if HasId(batch, id) {
      var i :| 0 <= i < |batch| && batch[i].id == id;
      assert batch[i] in batch && s.hist.written[batch[i].id] == 0;
      hide NodesInv, SendInv;
      DetachedIsEnqueued(maxBatch, s, p.node, p.index, batch[i]);
      EnqueuedIdsExist(maxBatch, s, p.node, batch[i]);
    }
  }

  lemma SendKeeps(maxBatch: nat, s: State, p: Place)
    requires NodesInv(maxBatch, s) && SendInv(s) && Unsent(s, p)
    ensures SendInv(Sent(s, p))
  {
    var s' := Sent(s, p);
    SentWritesBatch(maxBatch, s, p);
    hide NodesInv, Sent;
    forall n, k, w | n in s'.hist.detached && 0 <= k < |s'.hist.detached[n]| && w in s'.hist.detached[n][k]
      ensures s'.hist.written[w.id] == if Place(n, k) in s'.hist.sent then 1 else 0
    {
      WriteIsOnce(maxBatch, s, s', p, n, k, w);
    }
    forall n, w | n in s'.batches && w in s'.batches[n] ensures s'.hist.written[w.id] == 0 {
      PendingUnwritten(maxBatch, s, s', p, n, w);
    }
    forall id: nat ensures s'.hist.written[id] <= 1 && (id in s'.hist.written ==> id < |s'.hist.owner|) {
      WrittenIds(maxBatch, s, s', p, id);
    }
  }

  lemma EnqueuedIdsExist(maxBatch: nat, s: State, n: nat, w: Waiter)
    requires NodesInv(maxBatch, s) && w in Get(s.hist.enqueued, n)
    ensures w.id < |s.hist.owner|
  {
    assert OwnIds(s.hist.owner, n, Get(s.hist.enqueued, n));
  }

  /** A step that sends nothing writes nothing; batches only move from pending to detached. */
  lemma QuietKeepsSends(s: State, s': State)
    requires SendInv(s) && s'.hist.sent == s.hist.sent && s'.hist.written == s.hist.written
      && |s.hist.owner| <= |s'.hist.owner|
    requires forall n :: n in s.hist.detached ==> n in s'.hist.detached && s.hist.detached[n] <= s'.hist.detached[n]
    requires forall n, k, w | n in s'.hist.detached && 0 <= k < |s'.hist.detached[n]| && w in s'.hist.detached[n][k] ::
      (n in s.hist.detached && k < |s.hist.detached[n]|) || s.hist.written[w.id] == 0
    requires forall n, w :: n in s'.batches && w in s'.batches[n] ==> s.hist.written[w.id] == 0
    ensures SendInv(s')
  {
    forall n, k, w | n in s'.hist.detached && 0 <= k < |s'.hist.detached[n]| && w in s'.hist.detached[n][k]
      ensures s'.hist.written[w.id] == if Place(n, k) in s'.hist.sent then 1 else 0
    {
      if n in s.hist.detached && k < |s.hist.detached[n]| {
        assert s'.hist.detached[n][k] == s.hist.detached[n][k];
      } else {
        assert Place(n, k) !in s.hist.sent;
      }
    }
  }

  lemma DetachKeepsSends(s: State, node: nat)
    requires SendInv(s)
    ensures SendInv(Detach(s, node))
  {
    if node in s.batches {
      QuietKeepsSends(s, Detach(s, node));
    }
  }

  lemma EnqueueKeepsSends(maxBatch: nat, s: State, node: nat, command: Command)
    requires SendInv(s)
    ensures SendInv(Enqueued(s, node, command))
  {
    assert s.hist.written[|s.hist.owner|] == 0;
    QuietKeepsSends(s, Enqueued(s, node, command));
  }

  lemma CancelKeepsSends(s: State, node: nat, id: nat)
    requires SendInv(s) && node in s.batches
    ensures SendInv(Cancelled(s, node, id))
  {
    WithoutShorter(s.batches[node], id);
    hide WithoutId;
    QuietKeepsSends(s, Cancelled(s, node, id));
  }

  lemma CloseKeepsSends(s: State)
    requires SendInv(s)
    ensures SendInv(DetachAll(s).(closed := true))
  {
    QuietKeepsSends(s, DetachAll(s).(closed := true));
  }

  lemma StepKeepsSends(maxBatch: nat, s: State, step: Step)
    requires maxBatch > 1 && NodesInv(maxBatch, s) && SendInv(s)
    ensures SendInv(Do(maxBatch, s, step))
  {
    hide NodesInv, SendInv, Enqueued, Detach, DetachAll, Cancelled, Sent;
    match step {
      case Enqueue(node, command) =>
        if !s.closed {
          EnqueueKeepsSends(maxBatch, s, node, command);
          DetachKeepsSends(Enqueued(s, node, command), node);
        }
      case Flush(node) => DetachKeepsSends(s, node);
      case Cancel(node, id) =>
        if node in s.batches && HasId(s.batches[node], id) {
          CancelKeepsSends(s, node, id);
        }
      case Close => CloseKeepsSends(s);
      case Send(p) =>
        if Unsent(s, p) {
          SendKeeps(maxBatch, s, p);
        }
    }
  }

  // ---------------------------------------------------------------- runs

  ghost predicate Inv(maxBatch: nat, s: State) {
    NodesInv(maxBatch, s) && SendInv(s)
  }

  ghost function Run(maxBatch: nat, steps: seq<Step>): (s: State)
    requires maxBatch > 1
    ensures Inv(maxBatch, s)
    decreases |steps|
  {
    if steps == [] then InitKeeps(maxBatch); Init()
    else
      var s := Run(maxBatch, steps[..|steps| - 1]);
      StepKeepsNodes(maxBatch, s, steps[|steps| - 1]);
      StepKeepsSends(maxBatch, s, steps[|steps| - 1]);
      Do(maxBatch, s, steps[|steps| - 1])
  }

  lemma RunSnoc(maxBatch: nat, steps: seq<Step>, step: Step)
    requires maxBatch > 1
    ensures Run(maxBatch, steps + [step]) == Do(maxBatch, Run(maxBatch, steps), step)
  {
    assert (steps + [step])[..|steps|] == steps;
    hide Do, Inv;
  }

  lemma InitKeeps(maxBatch: nat)
    requires maxBatch > 1
    ensures Inv(maxBatch, Init())
  {
  }

  lemma StepKeeps(maxBatch: nat, s: State, step: Step)
    requires maxBatch > 1 && Inv(maxBatch, s)
    ensures Inv(maxBatch, Do(maxBatch, s, step))
  {
    StepKeepsNodes(maxBatch, s, step);
    StepKeepsSends(maxBatch, s, step);
  }

  predicate IsPending(s: State, node: nat, w: Waiter) {
    w in Get(s.batches, node)
  }

  predicate IsDetached(s: State, node: nat, w: Waiter) {
    exists k :: 0 <= k < |Get(s.hist.detached, node)| && w in Get(s.hist.detached, node)[k]
  }

  /**
   In every run, for every node: every accepted command is in exactly one of pending, cancelled
   and detached, and nothing else is pending or detached; the detached batches followed by the
   pending one are the enqueue order less the cancelled waiters, and no batch is too large.
   */
  lemma CommandsAreConserved(maxBatch: nat, steps: seq<Step>, node: nat)
    requires maxBatch > 1
    ensures var s := Run(maxBatch, steps);
      && Flatten(Get(s.hist.detached, node)) + Get(s.batches, node)
        == Live(Get(s.hist.enqueued, node), s.hist.cancelled)
      && (forall w :: w in Get(s.hist.enqueued, node) ==>
            if w.id in s.hist.cancelled then !IsPending(s, node, w) && !IsDetached(s, node, w)
            else IsPending(s, node, w) != IsDetached(s, node, w))
      && (forall w :: IsPending(s, node, w) || IsDetached(s, node, w) ==> w in Get(s.hist.enqueued, node))
      && |Get(s.batches, node)| < maxBatch
      && forall k | 0 <= k < |Get(s.hist.detached, node)| :: 0 < |Get(s.hist.detached, node)[k]| <= maxBatch
  {
    var s := Run(maxBatch, steps);
    var e, d, p := Get(s.hist.enqueued, node), Get(s.hist.detached, node), Get(s.batches, node);
    FromNodeInv(maxBatch, e, s.hist.cancelled, d, p);
    LiveMembers(e, s.hist.cancelled);
    AscendingApart(Flatten(d), p);
    forall w ensures w in Flatten(d) <==> IsDetached(s, node, w) {
      InFlatten(d, w);
    }
    assert forall w :: w in Flatten(d) + p <==> w in Flatten(d) || w in p;
  }

  /** In every run a waiter's one-slot channel is written at most once, and only by the send of its own batch. */
  lemma WrittenAtMostOnce(maxBatch: nat, steps: seq<Step>, node: nat, k: nat, w: Waiter)
    requires maxBatch > 1
    ensures var s := Run(maxBatch, steps);
      && (forall id :: s.hist.written[id] <= 1)
      && (IsPending(s, node, w) ==> s.hist.written[w.id] == 0)
      && (k < |Get(s.hist.detached, node)| && w in Get(s.hist.detached, node)[k] ==>
            s.hist.written[w.id] == if Place(node, k) in s.hist.sent then 1 else 0)
  {
    assert SendInv(Run(maxBatch, steps));
  }

  /** After Close nothing is pending, and whatever follows, nothing more is admitted. */
  lemma {:induction false} ClosedForGood(maxBatch: nat, steps: seq<Step>, more: seq<Step>)
    requires maxBatch > 1 && Run(maxBatch, steps).closed
    ensures var s, s' := Run(maxBatch, steps), Run(maxBatch, steps + more);
      s'.closed && s'.batches == map[] && s'.hist.enqueued == s.hist.enqueued && s'.hist.detached == s.hist.detached
    decreases |more|
  {
    ClosedIsEmpty(maxBatch, Run(maxBatch, steps));
    hide NodesInv, SendInv, Do, Run;
    if more == [] {
      WithNothing(steps);
    } else {
      var init, last := more[..|more| - 1], more[|more| - 1];
      ClosedForGood(maxBatch, steps, init);
      ClosedStep(maxBatch, Run(maxBatch, steps + init), last);
      LastApart(more);
      Regroup(steps, init, [last]);
      RunSnoc(maxBatch, steps + init, last);
    }
  }

  lemma ClosedIsEmpty(maxBatch: nat, s: State)
    requires NodesInv(maxBatch, s) && s.closed
    ensures s.batches == map[]
  {
  }

  lemma ClosedStep(maxBatch: nat, s: State, step: Step)
    requires s.closed && s.batches == map[]
    ensures var s' := Do(maxBatch, s, step);
      s'.closed && s'.batches == map[] && s'.hist.enqueued == s.hist.enqueued && s'.hist.detached == s.hist.detached
  {
    if step.Close? {
      var s' := Do(maxBatch, s, step);
      forall n | n in s.hist.detached ensures s'.hist.detached[n] == s.hist.detached[n] {
        assert s.hist.detached[n] + [] == s.hist.detached[n];
      }
      assert s'.hist.detached == s.hist.detached;
    }
  }

  // ---------------------------------------------------------------- the mutex-guarded object

  datatype Admission = NoSender | Direct | Rejected | Queued(ready: seq<Waiter>)

  /** Leaving out the waiter at index i is leaving out its id. */
  lemma WithoutIndex(waiters: seq<Waiter>, i: nat)
    requires AscendingIds(waiters) && i < |waiters|
    ensures WithoutId(waiters, waiters[i].id) == waiters[..i] + waiters[i + 1..]
  {
    var w, rest := waiters[i], waiters[i + 1..];
    OthersDiffer(waiters, i);
    hide *;
    OneApart(waiters, i);
    WithoutConcat(waiters[..i], [w] + rest, w.id);
    WithoutConcat([w], rest, w.id);
    WithoutAbsent(waiters[..i], w.id);
    WithoutAbsent(rest, w.id);
    WithoutItself(w);
    WithNothing(rest);
  }

  lemma OthersDiffer(waiters: seq<Waiter>, i: nat)
    requires AscendingIds(waiters) && i < |waiters|
    ensures forall w :: w in waiters[..i] ==> w.id != waiters[i].id
    ensures forall w :: w in waiters[i + 1..] ==> w.id != waiters[i].id
  {
  }

  lemma WithoutItself(w: Waiter)
    ensures WithoutId([w], w.id) == []
  {
    assert [w][..0] == [];
  }

  /** The notifier's fields with their history; each method is one step of the state machine. */
  class AckBatchNotifier {
    const hasSender: bool
    const flushDelay: int
    const maxBatch: int
    var closed: bool
    var batches: map<nat, seq<Waiter>>
    var created: nat
    ghost var hist: History

    constructor (hasSender: bool, flushDelay: int, maxBatch: int)
      ensures Valid() && Abs() == Init() && !closed && batches == map[] && created == 0
      ensures this.maxBatch == if maxBatch <= 0 then 64 else maxBatch
      ensures this.hasSender == hasSender && this.flushDelay == flushDelay
    {
      this.hasSender, this.flushDelay := hasSender, flushDelay;
      this.maxBatch := if maxBatch <= 0 then 64 else maxBatch;
      closed, batches, created := false, map[], 0;
      hist := Init().hist;
      new;
      if this.maxBatch > 1 {
        InitKeeps(this.maxBatch);
      }
    }

    ghost function Abs(): State
      reads this
    {
      State(closed, batches, hist)
    }

    ghost predicate Valid()
      reads this
    {
      created == |hist.owner| && maxBatch > 0 && (maxBatch > 1 ==> Inv(maxBatch, Abs()))
    }

    /** Queues an acknowledgement unless batching is off or the notifier closed; a full batch is ready to be sent. */
    method NotifyAck(node: nat, command: Command) returns (r: Admission)
      requires Valid()
      modifies this
      ensures Valid()
      ensures r.NoSender? <==> !hasSender
      ensures r.Direct? <==> hasSender && (flushDelay <= 0 || maxBatch <= 1)
      ensures r.Rejected? <==> hasSender && !(flushDelay <= 0 || maxBatch <= 1) && old(closed)
      ensures Abs() == if r.Queued? then Do(maxBatch, old(Abs()), Enqueue(node, command)) else old(Abs())
      ensures r.Queued? ==> r.ready == if |Get(old(batches), node)| + 1 >= maxBatch
        then Get(old(batches), node) + [Waiter(old(created), command)] else []
      // A batch waits until it is full; then it is handed out whole. Other nodes are not touched.
      ensures r.Queued? ==>
        var batch := (if node in old(batches) then old(batches)[node] else []) + [Waiter(old(created), command)];
        && created == old(created) + 1 && !closed
        && (if |batch| >= maxBatch then r.ready == batch && batches == old(batches) - {node}
            else r.ready == [] && batches == old(batches)[node := batch])
      ensures !r.Queued? ==> batches == old(batches) && created == old(created) && closed == old(closed)
    {
      if !hasSender {
        return NoSender;
      }
      if flushDelay <= 0 || maxBatch <= 1 {
        return Direct;
      }
      if closed {
        return Rejected;
      }
      var ready := Admit(node, command);
      return Queued(ready);
    }

    /** The critical section of an admitted acknowledgement. */
    method Admit(node: nat, command: Command) returns (ready: seq<Waiter>)
      requires Valid() && maxBatch > 1 && !closed
      modifies this
      ensures Valid() && Abs() == Do(maxBatch, old(Abs()), Enqueue(node, command))
      ensures ready == if |Get(old(batches), node)| + 1 >= maxBatch
        then Get(old(batches), node) + [Waiter(old(created), command)] else []
      ensures
        var batch := (if node in old(batches) then old(batches)[node] else []) + [Waiter(old(created), command)];
        && created == old(created) + 1 && !closed
        && batches == if |batch| >= maxBatch then old(batches) - {node} else old(batches)[node := batch]
    {
      hide Inv;
      StepKeeps(maxBatch, Abs(), Enqueue(node, command));
      var waiter := Waiter(created, command);
      created := created + 1;
      var batch := (if node in batches then batches[node] else []) + [waiter];
      batches := batches[node := batch];
      hist := hist.(owner := hist.owner + [node],
        enqueued := hist.enqueued[node := Get(hist.enqueued, node) + [waiter]]);
      assert Abs() == Enqueued(old(Abs()), node, command);
      hide Enqueued;
      ready := [];
      if |batch| >= maxBatch {
        hide Detach;
        ready := DetachNode(node);
      }
      CreatedCounts(maxBatch, old(Abs()), node, command);
    }

    lemma CreatedCounts(max: nat, s: State, node: nat, command: Command)
      requires !s.closed
      ensures |Do(max, s, Enqueue(node, command)).hist.owner| == |s.hist.owner| + 1
    {
    }

    /** Takes a node's batch out of the pending ones. */
    method DetachNode(node: nat) returns (waiters: seq<Waiter>)
      modifies this`batches, this`hist
      ensures Abs() == Detach(old(Abs()), node)
      ensures batches == old(batches) - {node}
      ensures waiters == Get(old(batches), node)
    {
      if node !in batches {
        return [];
      }
      waiters := batches[node];
      hist := hist.(detached := hist.detached[node := Get(hist.detached, node) + [waiters]]);
      batches := batches - {node};
    }

    /** The timer's flush. */
    method FlushNode(node: nat) returns (waiters: seq<Waiter>)
      requires Valid() && maxBatch > 1
      modifies this
      ensures Valid() && Abs() == Do(maxBatch, old(Abs()), Flush(node))
      ensures waiters == if node in old(batches) then old(batches)[node] else []
      ensures batches == old(batches) - {node} && closed == old(closed) && created == old(created)
    {
      StepKeeps(maxBatch, Abs(), Flush(node));
      hide Inv;
      waiters := DetachNode(node);
    }

    /** The pending batches without the i-th waiter of a node. */
    ghost function WithoutAt(pending: map<nat, seq<Waiter>>, node: nat, i: nat): map<nat, seq<Waiter>>
      requires node in pending && i < |pending[node]|
    {
      if |pending[node]| == 1 then pending - {node}
      else pending[node := pending[node][..i] + pending[node][i + 1..]]
    }

    /** Withdraws a waiter that is still pending. */
    method CancelWaiter(node: nat, id: nat) returns (ok: bool)
      requires Valid() && maxBatch > 1
      modifies this
      ensures Valid() && Abs() == Do(maxBatch, old(Abs()), Cancel(node, id))
      ensures ok <==> node in old(batches) && HasId(old(batches)[node], id)
      // Exactly that waiter leaves; a batch that becomes empty goes, and everything else stays.
      ensures ok <==> node in old(batches) && exists i ::
        0 <= i < |old(batches)[node]| && old(batches)[node][i].id == id
      ensures ok ==> exists i ::
        0 <= i < |old(batches)[node]| && old(batches)[node][i].id == id && batches == WithoutAt(old(batches), node, i)
      ensures !ok ==> batches == old(batches)
      ensures closed == old(closed) && created == old(created)
    {
      if node !in batches {
        return false;
      }
      var batch := batches[node];
      for i := 0 to |batch|
        invariant forall j | 0 <= j < i :: batch[j].id != id
      {
        if batch[i].id == id {
          RemoveAt(node, i);
          return true;
        }
      }
      return false;
    }

    /** The waiter at index i leaves the node's batch. */
    method RemoveAt(node: nat, i: nat)
      requires Valid() && maxBatch > 1 && node in batches && i < |batches[node]|
      modifies this
      ensures Valid() && Abs() == Do(maxBatch, old(Abs()), Cancel(node, old(batches)[node][i].id))
      ensures batches == WithoutAt(old(batches), node, i) && closed == old(closed) && created == old(created)
    {
      hide Inv, AscendingIds, WithoutId;
      var batch, id := batches[node], batches[node][i].id;
      PendingAscends(maxBatch, Abs(), node);
      WithoutIndex(batch, i);
      StepKeeps(maxBatch, Abs(), Cancel(node, id));
      var left := batch[..i] + batch[i + 1..];
      hist := hist.(cancelled := hist.cancelled + {id});
      batches := if left == [] then batches - {node} else batches[node := left];
    }

    lemma BatchAscends(max: nat, s: State, place: Place)
      requires Inv(max, s) && place.node in s.hist.detached && place.index < |s.hist.detached[place.node]|
      ensures AscendingIds(s.hist.detached[place.node][place.index])
    {
      BatchesApart(max, Get(s.hist.enqueued, place.node), s.hist.cancelled, s.hist.detached[place.node],
        Get(s.batches, place.node), place.index);
    }

    lemma PendingAscends(max: nat, s: State, node: nat)
      requires Inv(max, s) && node in s.batches
      ensures AscendingIds(s.batches[node])
    {
      var e, d := Get(s.hist.enqueued, node), Get(s.hist.detached, node);
      FromNodeInv(max, e, s.hist.cancelled, d, s.batches[node]);
      LiveMembers(e, s.hist.cancelled);
      AscendingApart(Flatten(d), s.batches[node]);
    }

    /** Closes the notifier and takes out every pending batch, in any order of the nodes. */
    method Close() returns (pending: map<nat, seq<Waiter>>)
      requires Valid() && maxBatch > 1
      modifies this
      ensures Valid() && Abs() == Do(maxBatch, old(Abs()), Step.Close)
      ensures pending == old(batches) && batches == map[] && closed && created == old(created)
    {
      hide Inv, DetachExcept, Detach, DetachAll;
      StepKeeps(maxBatch, Abs(), Step.Close);
      closed := true;
      pending := map[];
      var nodes := batches.Keys;
      ghost var start := Abs();
      DetachNone(start);
      while nodes != {}
        invariant nodes == batches.Keys && created == old(created)
        invariant Abs() == DetachExcept(start, nodes)
        invariant forall n :: n in batches ==> n in old(batches) && batches[n] == old(batches)[n]
        invariant pending.Keys == old(batches).Keys - nodes && forall n ::
          n in pending ==> pending[n] == old(batches)[n]
        decreases nodes
      {
        var node :| node in nodes;
        DetachOneMore(start, nodes, node);
        var waiters := DetachNode(node);
        pending := pending[node := waiters];
        nodes := nodes - {node};
      }
      DetachEvery(start);
      ClosedAlike(old(Abs()));
    }

    lemma ClosedAlike(s: State)
      ensures DetachAll(s.(closed := true)) == DetachAll(s).(closed := true)
      ensures |DetachAll(s).hist.owner| == |s.hist.owner|
    {
    }

    /** Sends a detached batch and reports the outcome to each of its waiters. */
    method FlushWaiters(place: Place, waiters: seq<Waiter>) returns (commands: seq<Command>)
      requires Valid() && maxBatch > 1
      requires Unsent(Abs(), place) && waiters == hist.detached[place.node][place.index]
      modifies this`hist
      ensures Valid() && Abs() == Do(maxBatch, old(Abs()), Send(place))
      ensures |commands| == |waiters| && forall i | 0 <= i < |waiters| :: commands[i] == waiters[i].command
      ensures hist.sent == old(hist).sent + {place}
      ensures forall id: nat ::
        hist.written[id] == old(hist).written[id] +
          if exists i :: 0 <= i < |waiters| && waiters[i].id == id then 1 else 0
    {
      SendIs(Abs(), place, waiters);
      hide Inv, Ids, Do, Unsent, HasId;
      commands := [];
      for i := 0 to |waiters|
        invariant |commands| == i && forall j | 0 <= j < i :: commands[j] == waiters[j].command
      {
        commands := commands + [waiters[i].command];
      }
      hist := hist.(sent := hist.sent + {place});
      WriteOutcomes(waiters);
    }

    /** A send keeps the invariant, and it writes to each waiter of its batch once. */
    lemma SendIs(s: State, place: Place, waiters: seq<Waiter>)
      requires maxBatch > 1 && Inv(maxBatch, s) && Unsent(s, place)
        && waiters == s.hist.detached[place.node][place.index]
      ensures Inv(maxBatch, Do(maxBatch, s, Send(place)))
      ensures Do(maxBatch, s, Send(place))
        == s.(hist := s.hist.(sent := s.hist.sent + {place}, written := s.hist.written + multiset(Ids(waiters))))
      ensures forall id: nat ::
        multiset(Ids(waiters))[id] == if exists i :: 0 <= i < |waiters| && waiters[i].id == id then 1 else 0
    {
      BatchAscends(maxBatch, s, place);
      hide *;
      StepKeeps(maxBatch, s, Send(place));
      SendShape(s, place);
      IdsOnce(waiters);
    }

    lemma SendShape(s: State, place: Place)
      requires maxBatch >= 0 && Unsent(s, place)
      ensures Do(maxBatch, s, Send(place)) == s.(hist := s.hist.(sent := s.hist.sent + {place},
        written := s.hist.written + multiset(Ids(s.hist.detached[place.node][place.index]))))
    {
      hide Ids;
    }

    lemma IdsOnce(waiters: seq<Waiter>)
      requires AscendingIds(waiters)
      ensures forall id: nat ::
        multiset(Ids(waiters))[id] == if exists i :: 0 <= i < |waiters| && waiters[i].id == id then 1 else 0
    {
      hide AscendingIds, Ids;
      forall id: nat
        ensures multiset(Ids(waiters))[id] == if exists i :: 0 <= i < |waiters| && waiters[i].id == id then 1 else 0
      {
        IdsCount(waiters, id);
      }
    }

    /** Writes the outcome to every waiter's channel, one after the other. */
    method WriteOutcomes(waiters: seq<Waiter>)
      modifies this`hist
      ensures hist == old(hist).(written := old(hist).written + multiset(Ids(waiters)))
    {
      hide *;
      NoneWritten(waiters, hist.written);
      for i: nat := 0 to |waiters|
        invariant hist == old(hist).(written := old(hist).written + multiset(Ids(waiters[..i])))
      {
        WriteOne(waiters, i, old(hist).written);
        hist := hist.(written := hist.written + multiset{waiters[i].id});
      }
    }

    /** Writing one more waiter. */
    lemma WriteOne(waiters: seq<Waiter>, i: nat, written: multiset<nat>)
      requires i < |waiters|
      ensures written + multiset(Ids(waiters[..i])) + multiset{waiters[i].id}
        == written + multiset(Ids(waiters[..i + 1]))
    {
      assert waiters[..i + 1][..i] == waiters[..i];
    }

    lemma NoneWritten(waiters: seq<Waiter>, written: multiset<nat>)
      ensures written == written + multiset(Ids(waiters[..0])) && waiters[..|waiters|] == waiters
    {
    }
  }

  /** Every batch is detached but those of the given nodes. */
  ghost function DetachExcept(s: State, nodes: set<nat>): State {
    s.(batches := map n | n in s.batches && n in nodes :: s.batches[n],
       hist := s.hist.(detached :=
         map n | n in (s.batches.Keys - nodes) + s.hist.detached.Keys ::
           Get(s.hist.detached, n) + if n in s.batches && n !in nodes then [s.batches[n]] else []))
  }

  lemma DetachNone(s: State)
    ensures DetachExcept(s, s.batches.Keys) == s
  {
    var s' := DetachExcept(s, s.batches.Keys);
    forall n | n in s.hist.detached ensures s'.hist.detached[n] == s.hist.detached[n] {
      assert s.hist.detached[n] + [] == s.hist.detached[n];
    }
    assert s'.hist.detached == s.hist.detached && s'.batches == s.batches;
  }

  /** What is detached of one node when one more node's batch goes. */
  lemma DetachedAt(s: State, nodes: set<nat>, node: nat, n: nat)
    requires nodes <= s.batches.Keys && node in nodes
    ensures var d, e := Detach(DetachExcept(s, nodes), node).hist.detached,
      DetachExcept(s, nodes - {node}).hist.detached;
      (n in d <==> n in e) && (n in e ==> d[n] == e[n])
  {
    WithNothing(Get(s.hist.detached, n));
    assert n == node ==> Get(DetachExcept(s, nodes).hist.detached, n) == Get(s.hist.detached, n);
  }

  lemma DetachOneMore(s: State, nodes: set<nat>, node: nat)
    requires nodes <= s.batches.Keys && node in nodes
    ensures Detach(DetachExcept(s, nodes), node) == DetachExcept(s, nodes - {node})
  {
    var s', t := Detach(DetachExcept(s, nodes), node), DetachExcept(s, nodes - {node});
    assert s'.batches == t.batches;
    assert s' == s.(batches := t.batches, hist := s.hist.(detached := s'.hist.detached));
    hide Get, Detach, DetachExcept;
    forall n ensures (n in s'.hist.detached <==> n in t.hist.detached)
      && (n in t.hist.detached ==> s'.hist.detached[n] == t.hist.detached[n])
    {
      DetachedAt(s, nodes, node, n);
    }
    assert s'.hist.detached == t.hist.detached;
    OnlyDetached(s, nodes - {node});
  }

  lemma OnlyDetached(s: State, nodes: set<nat>)
    ensures var t := DetachExcept(s, nodes); t == s.(batches := t.batches, hist := s.hist.(detached := t.hist.detached))
  {
  }

  lemma DetachEvery(s: State)
    ensures DetachExcept(s, {}) == DetachAll(s)
  {
    var s', t := DetachExcept(s, {}), DetachAll(s);
    assert s'.hist.detached == t.hist.detached && s'.batches == t.batches;
  }
}
