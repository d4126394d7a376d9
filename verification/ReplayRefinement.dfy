/**
 A replay pass (internal/app/committed_replay.go:320-386) inside the joint protocol: every
 disciplined trace is a run of steps of one replica, whatever the other replicas, the log and
 retention do in between, as long as they leave that replica's cursor row and its pass alone.
 */
module ReplayRefinement {
  import opened Options
  import opened Sequence64
  import opened Sequences
  import opened ReplayRetention
  import Pass = CommittedReplay

  /** The replica's steps that make up one event of a pass. */
  function StepsOf(e: Pass.Event): seq<NodeStep> {
    match e
    case Observed(st) => [Observe(st.committed, st.minAvailable)]
    case Jumped(_) => [JumpWrite]
    case Accepted(_) => [Deliver]
    case Stored(_) => [EndBatch, StoreWrite(true)]
  }

  function AtAll(n: nat, steps: seq<NodeStep>): seq<Step> {
    seq(|steps|, i requires 0 <= i < |steps| => AtNode(n, steps[i]))
  }

  /** The place in the protocol at which a pass with this progress stands. */
  function PcOf(p: Pass.Progress): ReplayPc {
    if !p.observed then ReplayPc.Pass(p.cursor)
    else if p.last == p.cursor && 0 < p.floor && Next(p.cursor) < p.floor
      then Jumping(p.floor - 1, p.cursor, p.frontier)
    else if p.last == p.cursor then AfterFloor(p.cursor, p.frontier)
    else Batch(p.cursor, p.frontier, p.last)
  }

  /** The replica is where the pass is, and has stored what the pass has stored. */
  ghost predicate Stands(node: Node, p: Pass.Progress) {
    && node.cursor == p.cursor <= p.last && node.replay == PcOf(p) && 0 < p.floor
    && (p.cursor < p.last ==> p.observed && p.floor <= Next(p.cursor) && p.last <= p.frontier)
  }

  /** What the runtime reports to the pass is what it may report at this point of the protocol. */
  ghost predicate MayHappen(mode: Mode, s: State, e: Pass.Event) {
    e.Observed? ==>
      && e.state.committed <= s.committed
      && (mode.unboundedFloor || e.state.minAvailable <= Next(s.boundary))
  }

  function DeliveredIn(e: Pass.Event): set<Seq64> {
    if e.Accepted? then {e.q} else {}
  }

  /** One event on the replica alone. */
  lemma EventOnNode(node: Node, p: Pass.Progress, e: Pass.Event)
    requires Stands(node, p) && Pass.Advance(p, e).Some?
    ensures var q, first := Pass.Advance(p, e).value, ApplyNode(node, StepsOf(e)[0]);
      Stands(if e.Stored? then ApplyNode(first, StepsOf(e)[1]) else first, q)
    ensures e.Accepted? ==> DeliveredBy(node, StepsOf(e)[0]) == {e.q}
    ensures !e.Accepted? ==> DeliveredBy(node, StepsOf(e)[0]) == {}
  {
  }

  lemma EventIsEnabled(mode: Mode, s: State, node: Node, p: Pass.Progress, e: Pass.Event)
    requires Stands(node, p) && Pass.Advance(p, e).Some? && MayHappen(mode, s, e)
    ensures NodeEnabled(mode, s, node, StepsOf(e)[0])
    ensures e.Stored? ==> NodeEnabled(mode, s, ApplyNode(node, StepsOf(e)[0]), StepsOf(e)[1])
  {
  }

  /** Only the replica's own cursor row and pass have changed, and what was delivered is accepted. */
  ghost predicate OnlyPass(s: State, t: State, n: nat, delivered: set<Seq64>) {
    && n in s.nodes && n in t.nodes && t.nodes == s.nodes[n := t.nodes[n]]
    && t.committed == s.committed && t.boundary == s.boundary && t.accepted == s.accepted + delivered
  }

  lemma OneStep(mode: Mode, s: State, n: nat, step: NodeStep)
    requires n in s.nodes && NodeEnabled(mode, s, s.nodes[n], step) && !step.Crash?
    ensures Run(mode, s, [AtNode(n, step)]).Some?
    ensures var t := Run(mode, s, [AtNode(n, step)]).value;
      OnlyPass(s, t, n, DeliveredBy(s.nodes[n], step)) && t.nodes[n] == ApplyNode(s.nodes[n], step)
  {
    var t := Apply(mode, s, AtNode(n, step));
    assert [AtNode(n, step)][1..] == [];
    assert Run(mode, t, []) == Some(t);
    hide Run, ApplyNode, NodeEnabled;
  }

  /**
   In any state of the protocol in which the replica stands where a pass is, the pass's next
   event is one or two steps of the replica, and afterwards it stands where the pass is then.
   */
  lemma EventIsSteps(mode: Mode, s: State, n: nat, p: Pass.Progress, e: Pass.Event)
    requires n in s.nodes && Stands(s.nodes[n], p) && Pass.Advance(p, e).Some? && MayHappen(mode, s, e)
    ensures Run(mode, s, AtAll(n, StepsOf(e))).Some?
    ensures var t := Run(mode, s, AtAll(n, StepsOf(e))).value;
      OnlyPass(s, t, n, DeliveredIn(e)) && Stands(t.nodes[n], Pass.Advance(p, e).value)
  {
    EventOnNode(s.nodes[n], p, e);
    EventIsEnabled(mode, s, s.nodes[n], p, e);
    var steps := StepsOf(e);
    assert !steps[0].Crash?;
    hide Run, ApplyNode, NodeEnabled, Stands, Pass.Advance;
    OneStep(mode, s, n, steps[0]);
    var first := Run(mode, s, [AtNode(n, steps[0])]).value;
    if e.Stored? {
      StoreDelivers(s.nodes[n], first.nodes[n]);
      SameEnabled(mode, s, first, first.nodes[n]);
      OneStep(mode, first, n, steps[1]);
      assert AtAll(n, steps) == [AtNode(n, steps[0])] + [AtNode(n, steps[1])];
      RunConcat(mode, s, [AtNode(n, steps[0])], [AtNode(n, steps[1])]);
    } else {
      assert AtAll(n, steps) == [AtNode(n, steps[0])];
    }
  }

  lemma StoreDelivers(node: Node, after: Node)
    ensures DeliveredBy(node, EndBatch) == {} && DeliveredBy(after, StoreWrite(true)) == {}
  {
  }

  /** Whether a cursor may be written does not depend on the rest of the protocol. */
  lemma SameEnabled(mode: Mode, s: State, t: State, node: Node)
    ensures NodeEnabled(mode, s, node, StoreWrite(true)) == NodeEnabled(mode, t, node, StoreWrite(true))
  {
  }

  // ---------------------------------------------------------------- whole passes

  /** The steps of a pass, with what happens elsewhere before each of its events. */
  function Woven(n: nat, trace: seq<Pass.Event>, others: seq<seq<Step>>): seq<Step>
    requires |others| == |trace|
    decreases |trace|
  {
    if trace == [] then [AtNode(n, BeginPass)]
    else
      var k := |trace| - 1;
      Woven(n, trace[..k], others[..k]) + others[k] + AtAll(n, StepsOf(trace[k]))
  }

  /** These steps are possible, and leave the replica's cursor row and its pass alone. */
  ghost predicate LeavesAlone(mode: Mode, s: State, n: nat, steps: seq<Step>) {
    var t := Run(mode, s, steps);
    && t.Some? && n in s.nodes && n in t.value.nodes
    && t.value.nodes[n].cursor == s.nodes[n].cursor && t.value.nodes[n].replay == s.nodes[n].replay
  }

  /** What happens elsewhere before each event leaves the pass alone, and the runtime reports what it may. */
  ghost predicate Elsewhere(mode: Mode, s: State, n: nat, trace: seq<Pass.Event>, others: seq<seq<Step>>)
    decreases |trace|
  {
    && |others| == |trace|
    && (trace == []
        || (var k := |trace| - 1;
            var before := Run(mode, s, Woven(n, trace[..k], others[..k]));
            && Elsewhere(mode, s, n, trace[..k], others[..k])
            && before.Some? && LeavesAlone(mode, before.value, n, others[k])
            && MayHappen(mode, Run(mode, before.value, others[k]).value, trace[k])))
  }

  lemma PassBegins(mode: Mode, s: State, n: nat)
    requires n in s.nodes && s.nodes[n].replay.Idle?
    ensures Run(mode, s, [AtNode(n, BeginPass)]).Some?
    ensures var t := Run(mode, s, [AtNode(n, BeginPass)]).value;
      n in t.nodes && Stands(t.nodes[n], Pass.StartAt(s.nodes[n].cursor))
  {
    OneStep(mode, s, n, BeginPass);
    hide Run;
  }

  lemma StillStands(before: Node, after: Node, p: Pass.Progress)
    requires Stands(before, p) && after.cursor == before.cursor && after.replay == before.replay
    ensures Stands(after, p)
  {
  }

  /** Acceptance is never undone. */
  lemma {:induction false} AcceptedGrows(mode: Mode, s: State, steps: seq<Step>)
    requires Run(mode, s, steps).Some?
    ensures s.accepted <= Run(mode, s, steps).value.accepted
    decreases |steps|
  {
    if steps != [] {
      AcceptedGrows(mode, Apply(mode, s, steps[0]), steps[1..]);
      hide ApplyNode, ApplyAdvance, DeliveredBy, Enabled, SyncedWrite;
    }
  }

  /** The replica stands where the pass is, and what the pass has delivered is accepted. */
  ghost predicate Reached(t: Option<State>, n: nat, p: Pass.Progress, trace: seq<Pass.Event>) {
    && t.Some? && n in t.value.nodes && Stands(t.value.nodes[n], p)
    && forall q | Pass.Accepted(q) in trace :: q in t.value.accepted
  }

  lemma OneMoreEvent(mode: Mode, s: State, n: nat, p: Pass.Progress, trace: seq<Pass.Event>, others: seq<Step>,
      e: Pass.Event)
    requires Reached(Some(s), n, p, trace) && LeavesAlone(mode, s, n, others)
    requires Pass.Advance(p, e).Some? && MayHappen(mode, Run(mode, s, others).value, e)
    ensures Reached(Run(mode, s, others + AtAll(n, StepsOf(e))), n, Pass.Advance(p, e).value, trace + [e])
  {
    var m := Run(mode, s, others).value;
    StillStands(s.nodes[n], m.nodes[n], p);
    hide Run, Stands, Pass.Advance, AtAll, StepsOf;
    EventIsSteps(mode, m, n, p, e);
    RunConcat(mode, s, others, AtAll(n, StepsOf(e)));
    AcceptedGrows(mode, s, others + AtAll(n, StepsOf(e)));
  }

  lemma LastWalked(start: Pass.Progress, trace: seq<Pass.Event>)
    requires trace != [] && Pass.Walk(start, trace).Some?
    ensures var k := |trace| - 1;
      && Pass.Walk(start, trace[..k]).Some?
      && Pass.Advance(Pass.Walk(start, trace[..k]).value, trace[k]) == Pass.Walk(start, trace)
  {
    hide Pass.Advance;
  }

  lemma LastWoven(n: nat, trace: seq<Pass.Event>, others: seq<seq<Step>>)
    requires trace != [] && |others| == |trace|
    ensures var k := |trace| - 1;
      Woven(n, trace, others) == Woven(n, trace[..k], others[..k]) + (others[k] + AtAll(n, StepsOf(trace[k])))
  {
    var k := |trace| - 1;
    Regroup(Woven(n, trace[..k], others[..k]), others[k], AtAll(n, StepsOf(trace[k])));
    hide AtAll, StepsOf;
  }

  lemma LastElsewhere(mode: Mode, s: State, n: nat, trace: seq<Pass.Event>, others: seq<seq<Step>>)
    requires trace != [] && Elsewhere(mode, s, n, trace, others)
    ensures var k := |trace| - 1; var before := Run(mode, s, Woven(n, trace[..k], others[..k]));
      && Elsewhere(mode, s, n, trace[..k], others[..k])
      && before.Some? && LeavesAlone(mode, before.value, n, others[k])
      && MayHappen(mode, Run(mode, before.value, others[k]).value, trace[k])
  {
    hide Run, LeavesAlone, MayHappen, Woven;
  }

  /**
   A pass is a run of the protocol: whatever happens elsewhere between its events, the trace of
   a pass that starts at the replica's cursor row is a sequence of enabled steps of the replica,
   at whose end the replica has stored the cursor that the pass has stored, and whatever the
   pass has delivered is accepted.
   */
  lemma {:induction false} PassIsARun(mode: Mode, s: State, n: nat, trace: seq<Pass.Event>, others: seq<seq<Step>>)
    requires n in s.nodes && s.nodes[n].replay.Idle?
    requires Pass.Walk(Pass.StartAt(s.nodes[n].cursor), trace).Some? && Elsewhere(mode, s, n, trace, others)
    ensures var start := Pass.StartAt(s.nodes[n].cursor);
      Reached(Run(mode, s, Woven(n, trace, others)), n, Pass.Walk(start, trace).value, trace)
    decreases |trace|
  {
    if trace == [] {
      PassBegins(mode, s, n);
      hide Run;
    } else {
      var k, start := |trace| - 1, Pass.StartAt(s.nodes[n].cursor);
      hide *;
      LastApart(trace);
      LastWalked(start, trace);
      LastWoven(n, trace, others);
      LastElsewhere(mode, s, n, trace, others);
      PassIsARun(mode, s, n, trace[..k], others[..k]);
      var before := Run(mode, s, Woven(n, trace[..k], others[..k]));
      OneMoreEvent(mode, before.value, n, Pass.Walk(start, trace[..k]).value, trace[..k], others[k], trace[k]);
      RunConcat(mode, s, Woven(n, trace[..k], others[..k]), others[k] + AtAll(n, StepsOf(trace[k])));
    }
  }

  /**
   So the joint safety theorem is about this pass: from any reachable state, with floors bounded
   by the boundary, everything up to the cursor that the pass has stored was accepted by delivery.
   */
  lemma PassIsSafe(mode: Mode, s: State, n: nat, trace: seq<Pass.Event>, others: seq<seq<Step>>)
    requires !mode.unboundedFloor && Reachable(mode, s) && n in s.nodes && s.nodes[n].replay.Idle?
    requires Pass.Walk(Pass.StartAt(s.nodes[n].cursor), trace).Some? && Elsewhere(mode, s, n, trace, others)
    ensures var t := Run(mode, s, Woven(n, trace, others));
      t.Some? && Safe(t.value)
        && Covered(t.value.accepted, Pass.Walk(Pass.StartAt(s.nodes[n].cursor), trace).value.cursor)
  {
    PassIsARun(mode, s, n, trace, others);
    var t := Run(mode, s, Woven(n, trace, others)).value;
    var init: State, steps: seq<Step> :| Init(init) && Run(mode, init, steps) == Some(s);
    RunConcat(mode, init, steps, Woven(n, trace, others));
    assert Run(mode, init, steps + Woven(n, trace, others)) == Some(t);
    hide Run, Woven;
    ReachableIsSafe(mode, t);
  }
}
