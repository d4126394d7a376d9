/**
 Committed replay and message retention as one protocol over the nodes that replicate a
 channel (internal/app/committed_replay.go with internal/app/manager_message_retention.go,
 and the cursor rows of pkg/db/message/compat.go).

 One step is one store access, one read of runtime state, or one delivery. Steps of all
 nodes interleave freely with commits, leader changes and crashes.

 Two assumptions about code outside these files are switches of the model, so that the
 theorems can say exactly which of them each guarantee needs:
   tornStores      a store call may be overtaken between reading and writing the cursor row;
   unboundedFloor  a node may report a first readable sequence above the retention boundary.
 */
module ReplayRetention {
  import opened Options
  import opened Sequence64
  import opened RetentionDecision

  datatype Mode = Mode(tornStores: bool, unboundedFloor: bool)

  // One replay pass over the channel. `loaded` is the cursor row as the pending store call read it.
  datatype ReplayPc =
    | Idle
    | Pass(cursor: Seq64)
    | Jumping(target: Seq64, loaded: Seq64, frontier: Seq64)
    | Batch(cursor: Seq64, frontier: Seq64, last: Seq64)
    | Storing(target: Seq64, loaded: Seq64)

  // One retention advance running on `node`.
  datatype Advance =
    | Viewed(node: nat, request: Seq64, through: Seq64)
    | Confirming(node: nat, request: Seq64, loaded: Seq64)
    | Confirmed(node: nat, request: Seq64, cursor: Seq64)
    | Decided(node: nat, epoch: nat, through: Seq64)

  // An adoption of the boundary `target` that read the cursor row `loaded`.
  datatype Adoption = Adoption(target: Seq64, loaded: Seq64)

  // `recoverable` holds the cursor rows that a crash may fall back to: the last synced one
  // and every unsynced one written since. A missing row is the cursor 0.
  datatype Node = Node(
    cursor: Seq64,
    recoverable: set<Seq64>,
    hw: Seq64,
    checkpoint: Seq64,
    boundary: Seq64,
    adopting: Option<Adoption>,
    replay: ReplayPc)

  datatype State = State(
    committed: Seq64,
    accepted: set<Seq64>,
    boundary: Seq64,
    epoch: nat,
    nodes: map<nat, Node>,
    advances: map<nat, Advance>)

  /** Steps of one replica: its log, its replayer, and its adoption of the boundary. */
  datatype NodeStep =
    | LearnHW(hw: Seq64)
    | WriteCheckpoint(checkpoint: Seq64)
    | LearnBoundary(through: Seq64)
    | Crash(recovered: Seq64, recoveredBoundary: Seq64)
    | BeginPass
    | Observe(frontier: Seq64, minAvailable: Seq64)
    | JumpWrite
    | Deliver
    | EndBatch
    | StoreWrite(again: bool)
    | AbortPass
    | AdoptLoad
    | AdoptWrite

  /** Steps of one retention advance after it has begun. */
  datatype AdvanceStep =
    | ConfirmLoad
    | ConfirmWrite
    | Decide(minISRMatch: Seq64)
    | CommitAdvance
    | AbortAdvance

  datatype Step =
    | Commit
    | LeaderChange
    | LiveDelivery(q: Seq64)
    | BeginAdvance(id: nat, n: nat, request: Seq64)
    | AtNode(n: nat, step: NodeStep)
    | AtAdvance(id: nat, move: AdvanceStep)

  predicate Init(s: State) {
    && s.committed == 0 && s.accepted == {} && s.boundary == 0 && s.advances == map[]
    && s.nodes.Keys != {}
    && forall n | n in s.nodes :: s.nodes[n] == Node(0, {0}, 0, 0, 0, None, Idle)
  }

  /** A store call that read `loaded` may write only if nothing was written in between, unless stores are torn. */
  predicate MayWrite(mode: Mode, node: Node, loaded: Seq64) {
    mode.tornStores || node.cursor == loaded
  }

  predicate NodeEnabled(mode: Mode, s: State, node: Node, step: NodeStep) {
    match step
    case LearnHW(hw) => node.hw <= hw <= s.committed
    case WriteCheckpoint(c) => node.checkpoint <= c <= node.hw
    case LearnBoundary(through) => node.boundary < through <= s.boundary
    case Crash(recovered, boundary) => recovered in node.recoverable && boundary <= node.boundary
    case BeginPass => node.replay.Idle?
    // A leader reports what it has committed; a node that does not lead reports zeros.
    case Observe(frontier, minAvailable) =>
      && node.replay.Pass?
      && frontier <= s.committed
      && (mode.unboundedFloor || minAvailable <= Next(s.boundary))
    case JumpWrite => node.replay.Jumping? && MayWrite(mode, node, node.replay.loaded)
    case Deliver => node.replay.Batch? && node.replay.last < node.replay.frontier
    case EndBatch => node.replay.Batch?
    case StoreWrite(_) => node.replay.Storing? && MayWrite(mode, node, node.replay.loaded)
    case AbortPass => true
    case AdoptLoad => node.adopting.None?
    case AdoptWrite => node.adopting.Some? && MayWrite(mode, node, node.adopting.value.loaded)
  }

  predicate AdvanceEnabled(mode: Mode, node: Node, a: Advance, move: AdvanceStep) {
    match move
    case ConfirmLoad => a.Viewed?
    case ConfirmWrite => a.Confirming? && MayWrite(mode, node, a.loaded)
    case Decide(_) => a.Confirmed?
    case CommitAdvance => a.Decided?
    case AbortAdvance => true
  }

  predicate Enabled(mode: Mode, s: State, step: Step) {
    match step
    case Commit => s.committed < MAX_SEQ
    case LeaderChange => true
    case LiveDelivery(q) => 1 <= q <= s.committed
    case BeginAdvance(id, n, request) => id !in s.advances && n in s.nodes && s.nodes[n].boundary < request
    case AtNode(n, st) => n in s.nodes && NodeEnabled(mode, s, s.nodes[n], st)
    case AtAdvance(id, move) =>
      && id in s.advances && s.advances[id].node in s.nodes
      && AdvanceEnabled(mode, s.nodes[s.advances[id].node], s.advances[id], move)
  }

  /** The lag check at the top of a replay iteration. */
  function AfterFloor(cursor: Seq64, frontier: Seq64): ReplayPc {
    if frontier == 0 || frontier <= cursor then Idle else Batch(cursor, frontier, cursor)
  }

  function UnsyncedWrite(node: Node, v: Seq64): Node {
    node.(cursor := v, recoverable := node.recoverable + {v})
  }

  function SyncedWrite(node: Node, v: Seq64): Node {
    node.(cursor := v, recoverable := {v})
  }

  /** The decision of the retention manager on the node's latest view. */
  function DecideAdvance(node: Node, a: Advance, minISRMatch: Seq64): Seq64
    requires a.Confirmed?
  {
    Lowest(a.request,
      GatesOf(a.cursor, View(0, true, None, 0, 0, node.hw, node.checkpoint, minISRMatch, node.boundary)))
  }

  /** What a step does to the replica it runs on. */
  function ApplyNode(node: Node, step: NodeStep): Node {
    match step
    case LearnHW(hw) => node.(hw := hw)
    case WriteCheckpoint(c) => node.(checkpoint := c)
    case LearnBoundary(through) => node.(boundary := through)
    case Crash(recovered, boundary) => Node(recovered, {recovered}, node.checkpoint, node.checkpoint, boundary, None,
      Idle)
    case BeginPass => node.(replay := Pass(node.cursor))
    case Observe(frontier, minAvailable) =>
      if !node.replay.Pass? then node
      else
        var floor := NormalizeMinAvailable(minAvailable);
        if Next(node.replay.cursor) < floor then node.(replay := Jumping(floor - 1, node.cursor, frontier))
        else node.(replay := AfterFloor(node.replay.cursor, frontier))
    case JumpWrite =>
      if !node.replay.Jumping? then node
      else if node.replay.loaded > node.replay.target then node.(replay := Idle)
      else SyncedWrite(node, node.replay.target).(replay := AfterFloor(node.replay.target, node.replay.frontier))
    case Deliver =>
      if !node.replay.Batch? then node
      else node.(replay := node.replay.(last := Next(node.replay.last)))
    case EndBatch =>
      if !node.replay.Batch? then node
      else if node.replay.last == node.replay.cursor then node.(replay := Idle)
      else node.(replay := Storing(node.replay.last, node.cursor))
    case StoreWrite(again) =>
      if !node.replay.Storing? then node
      else
        var stored :=
          if node.replay.loaded >= node.replay.target then node else UnsyncedWrite(node, node.replay.target);
        stored.(replay := if again then Pass(node.replay.target) else Idle)
    case AbortPass => node.(replay := Idle)
    case AdoptLoad =>
      if node.cursor < node.boundary then node.(adopting := Some(Adoption(node.boundary, node.cursor))) else node
    case AdoptWrite =>
      if node.adopting.None? then node else SyncedWrite(node, node.adopting.value.target).(adopting := None)
  }

  /** The sequence that a step hands to delivery, if any. */
  function DeliveredBy(node: Node, step: NodeStep): set<Seq64> {
    if step.Deliver? && node.replay.Batch? then {Next(node.replay.last)} else {}
  }

  /** What a step does to one retention advance; None when the advance ends here. */
  function ApplyAdvance(node: Node, epoch: nat, a: Advance, move: AdvanceStep): Option<Advance> {
    match move
    case ConfirmLoad =>
      if a.Viewed? && Next(a.through) <= node.cursor then Some(Confirming(a.node, a.request, node.cursor)) else None
    case ConfirmWrite => if a.Confirming? then Some(Confirmed(a.node, a.request, a.loaded)) else None
    case Decide(minISRMatch) =>
      if a.Confirmed? && node.boundary < DecideAdvance(node, a, minISRMatch)
      then Some(Decided(a.node, epoch, DecideAdvance(node, a, minISRMatch))) else None
    case CommitAdvance => None
    case AbortAdvance => None
  }

  function SetAdvance(advances: map<nat, Advance>, id: nat, a: Option<Advance>): map<nat, Advance> {
    match a
    case Some(v) => advances[id := v]
    case None => advances - {id}
  }

  function Apply(mode: Mode, s: State, step: Step): State
    requires Enabled(mode, s, step)
  {
    match step
    case Commit => s.(committed := s.committed + 1)
    case LeaderChange => s.(epoch := s.epoch + 1)
    case LiveDelivery(q) => s.(accepted := s.accepted + {q})
    case BeginAdvance(id, n, request) => s.(advances := s.advances[id := Viewed(n, request, s.nodes[n].boundary)])
    case AtNode(n, st) =>
      s.(nodes := s.nodes[n := ApplyNode(s.nodes[n], st)],
         accepted := s.accepted + DeliveredBy(s.nodes[n], st),
         // A crash also ends the advances that ran on the node.
         advances :=
           if st.Crash? then map id | id in s.advances && s.advances[id].node != n :: s.advances[id] else s.advances)
    case AtAdvance(id, move) =>
      var a := s.advances[id];
      var node := s.nodes[a.node];
      s.(advances := SetAdvance(s.advances, id, ApplyAdvance(node, s.epoch, a, move)),
         nodes := if move.ConfirmWrite? then s.nodes[a.node := SyncedWrite(node, a.loaded)] else s.nodes,
         // Metadata accepts only behind the fence of the view that decided, and never moves back.
         boundary := if move.CommitAdvance? && a.epoch == s.epoch then Max(s.boundary, a.through) else s.boundary)
  }

  /** Runs the steps in order; None as soon as one of them is not enabled. */
  function Run(mode: Mode, s: State, steps: seq<Step>): Option<State>
    decreases |steps|
  {
    if steps == [] then Some(s)
    else if Enabled(mode, s, steps[0]) then Run(mode, Apply(mode, s, steps[0]), steps[1..])
    else None
  }

  ghost predicate Reachable(mode: Mode, t: State) {
    exists s: State, steps: seq<Step> :: Init(s) && Run(mode, s, steps) == Some(t)
  }

  // ---------------------------------------------------------------- safety

  /** Every sequence up to `x` was accepted by delivery on some node, at least once. */
  ghost predicate Covered(accepted: set<Seq64>, x: Seq64) {
    forall q: Seq64 | 1 <= q <= x :: q in accepted
  }

  /** Nothing is hidden, skipped or claimed as dispatched that delivery has not accepted. */
  ghost predicate Safe(s: State) {
    && Covered(s.accepted, s.boundary)
    && s.boundary <= s.committed
    && (forall n | n in s.nodes :: Covered(s.accepted, s.nodes[n].cursor) && s.nodes[n].cursor <= s.committed)
    && (forall q | q in s.accepted :: 1 <= q <= s.committed)
  }

  /** `x` is covered and committed: the form in which coverage travels through registers. */
  ghost predicate Good(s: State, x: Seq64) {
    Covered(s.accepted, x) && x <= s.committed
  }

  ghost predicate ReplayInv(s: State, pc: ReplayPc) {
    match pc
    case Idle => true
    case Pass(cursor) => Good(s, cursor)
    case Jumping(target, _, frontier) => Good(s, target) && frontier <= s.committed
    case Batch(cursor, frontier, last) => Good(s, last) && cursor <= last && frontier <= s.committed
    case Storing(target, _) => Good(s, target)
  }

  ghost predicate NodeInv(s: State, node: Node) {
    && node.cursor in node.recoverable
    && (forall v | v in node.recoverable :: Good(s, v))
    && node.checkpoint <= node.hw <= s.committed
    && node.boundary <= s.boundary
    && (node.adopting.Some? ==> node.adopting.value.target <= s.boundary)
    && ReplayInv(s, node.replay)
  }

  ghost predicate AdvanceInv(s: State, a: Advance) {
    match a
    case Viewed(_, _, _) => true
    case Confirming(_, _, loaded) => Good(s, loaded)
    case Confirmed(_, _, cursor) => Good(s, cursor)
    case Decided(_, _, through) => Good(s, through)
  }

  ghost predicate Inv(s: State) {
    && Good(s, s.boundary)
    && (forall q | q in s.accepted :: 1 <= q <= s.committed)
    && (forall n | n in s.nodes :: NodeInv(s, s.nodes[n]))
    && (forall id | id in s.advances :: AdvanceInv(s, s.advances[id]))
  }

  /** Acceptance and the committed frontier only grow, so coverage is never lost. */
  lemma NodeInvIsStable(s: State, t: State, node: Node)
    requires NodeInv(s, node) && s.accepted <= t.accepted && s.committed <= t.committed && s.boundary <= t.boundary
    ensures NodeInv(t, node)
  {
  }

  lemma AdvanceInvIsStable(s: State, t: State, a: Advance)
    requires AdvanceInv(s, a) && s.accepted <= t.accepted && s.committed <= t.committed
    ensures AdvanceInv(t, a)
  {
  }

  lemma CoveredDownward(s: State, x: Seq64, y: Seq64)
    requires Good(s, x) && y <= x
    ensures Good(s, y)
  {
  }

  lemma ReplayStepKeepsInv(mode: Mode, s: State, node: Node, step: NodeStep)
    requires Inv(s) && NodeInv(s, node) && NodeEnabled(mode, s, node, step) && !mode.unboundedFloor
    requires step.BeginPass? || step.Observe? || step.JumpWrite? || step.EndBatch? || step.StoreWrite?
      || step.AbortPass?
    ensures NodeInv(s, ApplyNode(node, step))
  {
    if step.Observe? {
      CoveredDownward(s, s.boundary, NormalizeMinAvailable(step.minAvailable) - 1);
    }
  }

  lemma DeliverKeepsInv(s: State, t: State, node: Node)
    requires NodeInv(s, node) && node.replay.Batch? && node.replay.last < node.replay.frontier
    requires t.committed == s.committed && t.boundary == s.boundary
      && t.accepted == s.accepted + DeliveredBy(node, Deliver)
    ensures NodeInv(t, ApplyNode(node, Deliver))
  {
    NodeInvIsStable(s, t, node);
    assert Good(t, Next(node.replay.last));
  }

  lemma NodeStepKeepsInv(mode: Mode, s: State, t: State, node: Node, step: NodeStep)
    requires Inv(s) && NodeInv(s, node) && NodeEnabled(mode, s, node, step) && !mode.unboundedFloor
    requires t.committed == s.committed && t.boundary == s.boundary
      && t.accepted == s.accepted + DeliveredBy(node, step)
    ensures NodeInv(t, ApplyNode(node, step))
  {
    if step.Deliver? {
      DeliverKeepsInv(s, t, node);
    } else {
      if step.BeginPass? || step.Observe? || step.JumpWrite? || step.EndBatch? || step.StoreWrite? || step.AbortPass? {
        ReplayStepKeepsInv(mode, s, node, step);
      } else if step.AdoptWrite? {
        CoveredDownward(s, s.boundary, node.adopting.value.target);
      }
      NodeInvIsStable(s, t, ApplyNode(node, step));
    }
  }

  lemma AdvanceStepKeepsInv(mode: Mode, s: State, node: Node, a: Advance, move: AdvanceStep)
    requires NodeInv(s, node) && AdvanceInv(s, a) && AdvanceEnabled(mode, node, a, move)
    ensures var b := ApplyAdvance(node, s.epoch, a, move); b.Some? ==> AdvanceInv(s, b.value)
  {
    if move.Decide? {
      DecisionRespectsGates(node, a, move.minISRMatch);
      CoveredDownward(s, a.cursor, DecideAdvance(node, a, move.minISRMatch));
    }
  }

  lemma DecisionRespectsGates(node: Node, a: Advance, minISRMatch: Seq64)
    requires a.Confirmed?
    ensures var d := DecideAdvance(node, a, minISRMatch);
            d <= a.request && d <= a.cursor && d <= minISRMatch && d <= node.hw && d <= node.checkpoint
  {
    var gates := GatesOf(a.cursor, View(0, true, None, 0, 0, node.hw, node.checkpoint, minISRMatch, node.boundary));
    LowestIsGreatestLowerBound(a.request, gates);
    assert gates[0].limit == a.cursor && gates[1].limit == minISRMatch && gates[2].limit == node.hw
      && gates[3].limit == node.checkpoint;
  }

  /** The least of the request and the four gates, when the decision is made. */
  ghost predicate Least(node: Node, request: Seq64, minISRMatch: Seq64, least: Seq64) {
    && least <= request && least <= node.cursor && least <= minISRMatch && least <= node.hw && least <= node.checkpoint
    && least in {request, node.cursor, minISRMatch, node.hw, node.checkpoint}
  }

  lemma DecidesTheLeast(node: Node, a: Advance, minISRMatch: Seq64, least: Seq64)
    requires a.Confirmed? && a.cursor == node.cursor && Least(node, a.request, minISRMatch, least)
    ensures DecideAdvance(node, a, minISRMatch) == least
  {
    var gates := GatesOf(a.cursor, View(0, true, None, 0, 0, node.hw, node.checkpoint, minISRMatch, node.boundary));
    LowestIsGreatestLowerBound(a.request, gates);
    assert gates[0].limit == a.cursor && gates[1].limit == minISRMatch && gates[2].limit == node.hw
      && gates[3].limit == node.checkpoint;
  }

  /**
   An advance that is not disturbed raises the boundary to the least of the request and the gates,
   syncs the cursor row on the way, and leaves everything else alone.
   */
  lemma AdvanceReachesTheLeast(mode: Mode, s: State, id: nat, n: nat, request: Seq64, minISRMatch: Seq64, least: Seq64)
    requires id !in s.advances && n in s.nodes && Least(s.nodes[n], request, minISRMatch, least)
    requires s.nodes[n].boundary < least
    ensures Run(mode, s, AdvanceSteps(id, n, request, minISRMatch)) == Some(
      s.(boundary := if least > s.boundary then least else s.boundary,
         nodes := s.nodes[n := s.nodes[n].(recoverable := {s.nodes[n].cursor})]))
  {
    hide Run, Least, DecideAdvance, ApplyNode, NodeEnabled, DeliveredBy;
    BelowTheCursor(s.nodes[n], request, minISRMatch, least);
    var steps, node := AdvanceSteps(id, n, request, minISRMatch), s.nodes[n];
    var s1 := s.(advances := s.advances[id := Viewed(n, request, node.boundary)]);
    var s2 := s1.(advances := s.advances[id := Confirming(n, request, node.cursor)]);
    OneMove(mode, s, steps, 0, s1);
    OneMove(mode, s1, steps, 1, s2);
    assert steps[0..] == steps;
    ConfirmedReachesTheLeast(mode, s, s2, id, n, request, minISRMatch, least);
  }

  /** The second half, from the confirmation of the cursor on. */
  lemma ConfirmedReachesTheLeast(mode: Mode, s: State, s2: State, id: nat, n: nat, request: Seq64, minISRMatch: Seq64,
      least: Seq64)
    requires id !in s.advances && n in s.nodes && Least(s.nodes[n], request, minISRMatch, least)
    requires s.nodes[n].boundary < least
    requires s2 == s.(advances := s.advances[id := Confirming(n, request, s.nodes[n].cursor)])
    ensures Run(mode, s2, AdvanceSteps(id, n, request, minISRMatch)[2..]) == Some(
      s.(boundary := if least > s.boundary then least else s.boundary,
         nodes := s.nodes[n := s.nodes[n].(recoverable := {s.nodes[n].cursor})]))
  {
    hide Run, Least, DecideAdvance, ApplyNode, NodeEnabled, DeliveredBy;
    var steps, node := AdvanceSteps(id, n, request, minISRMatch), s.nodes[n];
    var synced := node.(recoverable := {node.cursor});
    var s3 := s.(advances := s.advances[id := Confirmed(n, request, node.cursor)], nodes := s.nodes[n := synced]);
    var s4 := s3.(advances := s.advances[id := Decided(n, s.epoch, least)]);
    var s5 := s3.(advances := s.advances, boundary := if least > s.boundary then least else s.boundary);
    SameLeast(node, synced, request, minISRMatch, least);
    DecidesTheLeast(synced, s3.advances[id], minISRMatch, least);
    OneMove(mode, s2, steps, 2, s3);
    OneMove(mode, s3, steps, 3, s4);
    assert s4.advances - {id} == s.advances;
    OneMove(mode, s4, steps, 4, s5);
    assert steps[5..] == [];
    NoMove(mode, s5);
  }

  lemma BelowTheCursor(node: Node, request: Seq64, minISRMatch: Seq64, least: Seq64)
    requires Least(node, request, minISRMatch, least) && node.boundary < least
    ensures node.boundary < request && Next(node.boundary) <= node.cursor
  {
  }

  lemma SameLeast(node: Node, synced: Node, request: Seq64, minISRMatch: Seq64, least: Seq64)
    requires Least(node, request, minISRMatch, least) && synced == node.(recoverable := {node.cursor})
    ensures Least(synced, request, minISRMatch, least)
  {
  }

  lemma NoMove(mode: Mode, s: State)
    ensures Run(mode, s, []) == Some(s)
  {
  }

  lemma OneMove(mode: Mode, s: State, steps: seq<Step>, k: nat, t: State)
    requires k < |steps| && Enabled(mode, s, steps[k]) && Apply(mode, s, steps[k]) == t
    ensures Run(mode, s, steps[k..]) == Run(mode, t, steps[k + 1..])
  {
    assert steps[k..][1..] == steps[k + 1..];
  }

  function AdvanceSteps(id: nat, n: nat, request: Seq64, minISRMatch: Seq64): seq<Step> {
    [BeginAdvance(id, n, request), AtAdvance(id, ConfirmLoad), AtAdvance(id, ConfirmWrite),
     AtAdvance(id, Decide(minISRMatch)), AtAdvance(id, CommitAdvance)]
  }

  /**
   Adopting a boundary above the cursor brings the cursor to it, synced, and changes nothing else;
   a cursor at or above the boundary is left alone.
   */
  lemma AdoptionCatchesUp(mode: Mode, s: State, n: nat)
    requires n in s.nodes && s.nodes[n].adopting.None?
    ensures var node, load := s.nodes[n], AtNode(n, AdoptLoad);
      && Enabled(mode, s, load)
      && (node.boundary <= node.cursor ==> Apply(mode, s, load) == s)
      && (node.cursor < node.boundary ==>
            Run(mode, s, [load, AtNode(n, AdoptWrite)])
            == Some(s.(nodes := s.nodes[n := node.(cursor := node.boundary, recoverable := {node.boundary})])))
  {
    var node, steps := s.nodes[n], [AtNode(n, AdoptLoad), AtNode(n, AdoptWrite)];
    if node.cursor < node.boundary {
      var s1 := s.(nodes := s.nodes[n := node.(adopting := Some(Adoption(node.boundary, node.cursor)))]);
      var s2 := s.(nodes := s.nodes[n := node.(cursor := node.boundary, recoverable := {node.boundary})]);
      hide Run;
      OneMove(mode, s, steps, 0, s1);
      OneMove(mode, s1, steps, 1, s2);
      assert steps[0..] == steps && steps[2..] == [];
      NoMove(mode, s2);
    } else {
      assert s.nodes[n := node] == s.nodes;
    }
  }

  lemma AtNodeKeepsInv(mode: Mode, s: State, step: Step)
    requires Inv(s) && Enabled(mode, s, step) && !mode.unboundedFloor && step.AtNode?
    ensures Inv(Apply(mode, s, step))
  {
    var t := Apply(mode, s, step);
    var node := s.nodes[step.n];
    NodeStepKeepsInv(mode, s, t, node, step.step);
    forall q | q in t.accepted ensures 1 <= q <= t.committed {
      if q in DeliveredBy(node, step.step) {
        assert NodeInv(s, node);
      }
    }
    forall n | n in t.nodes ensures NodeInv(t, t.nodes[n]) {
      if n != step.n {
        NodeInvIsStable(s, t, s.nodes[n]);
      }
    }
    forall id | id in t.advances ensures AdvanceInv(t, t.advances[id]) {
      AdvanceInvIsStable(s, t, s.advances[id]);
    }
  }

  lemma AtAdvanceKeepsInv(mode: Mode, s: State, step: Step)
    requires Inv(s) && Enabled(mode, s, step) && step.AtAdvance?
    ensures Inv(Apply(mode, s, step))
  {
    var t := Apply(mode, s, step);
    var a := s.advances[step.id];
    AdvanceStepKeepsInv(mode, s, s.nodes[a.node], a, step.move);
    forall n | n in t.nodes ensures NodeInv(t, t.nodes[n]) {
      NodeInvIsStable(s, t, s.nodes[n]);
      if step.move.ConfirmWrite? && n == a.node {
        assert t.nodes[n] == SyncedWrite(s.nodes[n], a.loaded);
      }
    }
    forall id | id in t.advances ensures AdvanceInv(t, t.advances[id]) {
      if id != step.id {
        AdvanceInvIsStable(s, t, s.advances[id]);
      }
    }
  }

  lemma StepKeepsInv(mode: Mode, s: State, step: Step)
    requires Inv(s) && Enabled(mode, s, step) && !mode.unboundedFloor
    ensures Inv(Apply(mode, s, step))
  {
    var t := Apply(mode, s, step);
    if step.AtNode? {
      AtNodeKeepsInv(mode, s, step);
    } else if step.AtAdvance? {
      AtAdvanceKeepsInv(mode, s, step);
    } else {
      forall n | n in t.nodes ensures NodeInv(t, t.nodes[n]) {
        NodeInvIsStable(s, t, s.nodes[n]);
      }
      forall id | id in t.advances ensures AdvanceInv(t, t.advances[id]) {
        if id in s.advances {
          AdvanceInvIsStable(s, t, s.advances[id]);
        }
      }
    }
  }

  lemma {:induction false} RunKeepsInv(mode: Mode, s: State, steps: seq<Step>)
    requires Inv(s) && !mode.unboundedFloor && Run(mode, s, steps).Some?
    ensures Inv(Run(mode, s, steps).value)
    decreases |steps|
  {
    if steps != [] {
      StepKeepsInv(mode, s, steps[0]);
      RunKeepsInv(mode, Apply(mode, s, steps[0]), steps[1..]);
    }
  }

  /** In every interleaving, with atomic or with torn stores. */
  lemma ReachableIsSafe(mode: Mode, t: State)
    requires !mode.unboundedFloor && Reachable(mode, t)
    ensures Safe(t)
  {
    var s: State, steps: seq<Step> :| Init(s) && Run(mode, s, steps) == Some(t);
    RunKeepsInv(mode, s, steps);
  }

  lemma {:induction false} RunConcat(mode: Mode, s: State, a: seq<Step>, b: seq<Step>)
    requires Run(mode, s, a).Some?
    ensures Run(mode, s, a + b) == Run(mode, Run(mode, s, a).value, b)
    decreases |a|
  {
    if a == [] {
      assert a + b == b;
    } else {
      assert (a + b)[1..] == a[1..] + b;
      RunConcat(mode, Apply(mode, s, a[0]), a[1..], b);
    }
  }

  lemma InitIsReachable(mode: Mode, s: State)
    requires Init(s)
    ensures Reachable(mode, s)
  {
    assert Run(mode, s, []) == Some(s);
  }

  lemma ReachableStep(mode: Mode, s: State, step: Step) returns (t: State)
    requires Reachable(mode, s) && Enabled(mode, s, step)
    ensures t == Apply(mode, s, step) && Reachable(mode, t)
  {
    t := Apply(mode, s, step);
    var s0: State, steps: seq<Step> :| Init(s0) && Run(mode, s0, steps) == Some(s);
    RunConcat(mode, s0, steps, [step]);
    assert Run(mode, t, [step][1..]) == Some(t);
    assert Run(mode, s0, steps + [step]) == Some(t);
  }

  /** A state with the single replica 0. */
  function OneReplica(committed: Seq64, accepted: set<Seq64>, boundary: Seq64, node: Node,
      advances: map<nat, Advance>): State {
    State(committed, accepted, boundary, 0, map[0 := node], advances)
  }

  function FreshNode(): Node {
    Node(0, {0}, 0, 0, 0, None, Idle)
  }

  lemma OneReplicaMove(mode: Mode, committed: Seq64, accepted: set<Seq64>, node: Node, advances: map<nat, Advance>,
      step: NodeStep)
    requires var s := OneReplica(committed, accepted, 0, node, advances);
      Reachable(mode, s) && NodeEnabled(mode, s, node, step)
    requires !step.Crash? && !step.Deliver?
    ensures Reachable(mode, OneReplica(committed, accepted, 0, ApplyNode(node, step), advances))
  {
    var s := OneReplica(committed, accepted, 0, node, advances);
    var t := ReachableStep(mode, s, AtNode(0, step));
    assert s.accepted + DeliveredBy(node, step) == accepted;
    assert t == OneReplica(committed, accepted, 0, ApplyNode(node, step), advances);
  }

  lemma OneReplicaDelivers(mode: Mode, committed: Seq64, accepted: set<Seq64>, node: Node, advances: map<nat, Advance>)
    requires Reachable(mode, OneReplica(committed, accepted, 0, node, advances))
    requires node.replay.Batch? && node.replay.last < node.replay.frontier
    ensures Reachable(mode,
      OneReplica(committed, accepted + {Next(node.replay.last)}, 0, ApplyNode(node, Deliver), advances))
  {
    var t := ReachableStep(mode, OneReplica(committed, accepted, 0, node, advances), AtNode(0, Deliver));
    assert t == OneReplica(committed, accepted + {Next(node.replay.last)}, 0, ApplyNode(node, Deliver), advances);
  }

  lemma OneReplicaCommits(mode: Mode, committed: Seq64, accepted: set<Seq64>, node: Node, advances: map<nat, Advance>)
    requires committed < MAX_SEQ && Reachable(mode, OneReplica(committed, accepted, 0, node, advances))
    ensures Reachable(mode, OneReplica(committed + 1, accepted, 0, node, advances))
  {
    var t := ReachableStep(mode, OneReplica(committed, accepted, 0, node, advances), Commit);
  }

  lemma OneReplicaStarts(mode: Mode)
    ensures Reachable(mode, OneReplica(0, {}, 0, FreshNode(), map[]))
  {
    assert 0 in OneReplica(0, {}, 0, FreshNode(), map[]).nodes.Keys;
    InitIsReachable(mode, OneReplica(0, {}, 0, FreshNode(), map[]));
  }

  /** A replica that reports a floor above the boundary jumps over a committed message. */
  lemma UnboundedFloorSkips(mode: Mode) returns (t: State)
    requires mode.unboundedFloor
    ensures Reachable(mode, t) && !Safe(t)
  {
    var n := FreshNode();
    OneReplicaStarts(mode);
    OneReplicaCommits(mode, 0, {}, n, map[]);
    OneReplicaMove(mode, 1, {}, n, map[], BeginPass);
    OneReplicaMove(mode, 1, {}, n.(replay := Pass(0)), map[], Observe(0, 2));
    OneReplicaMove(mode, 1, {}, n.(replay := Jumping(1, 0, 0)), map[], JumpWrite);
    t := OneReplica(1, {}, 0, Node(1, {1}, 0, 0, 0, None, Idle), map[]);
    assert t.nodes[0].cursor == 1 && 1 !in t.accepted;
  }

  /**
   The joint safety theorem. Over every interleaving of commits, deliveries, replay passes,
   crashes, leader changes, boundary adoption and retention advances, every sequence at or
   below the boundary or a stored dispatch cursor has been accepted by delivery and is
   committed; and this holds exactly when no replica reports a floor above the boundary.
   */
  lemma SafeExactlyWithBoundedFloors(mode: Mode)
    ensures (forall t | Reachable(mode, t) :: Safe(t)) <==> !mode.unboundedFloor
  {
    if mode.unboundedFloor {
      var t := UnboundedFloorSkips(mode);
    } else {
      forall t | Reachable(mode, t) ensures Safe(t) {
        ReachableIsSafe(mode, t);
      }
    }
  }

  // ---------------------------------------------------------------- durability

  /** However `node` crashes, its dispatch cursor comes back at `x` or above. */
  ghost predicate Floor(node: Node, x: Seq64) {
    forall v | v in node.recoverable :: x <= v
  }

  /** Some replica durably holds both a dispatch cursor and a checkpoint at or above the boundary. */
  ghost predicate Anchored(s: State) {
    exists n :: n in s.nodes && Floor(s.nodes[n], s.boundary) && s.boundary <= s.nodes[n].checkpoint
  }

  ghost predicate AdvanceAnchored(s: State, a: Advance) {
    && a.node in s.nodes
    && (a.Confirmed? ==> Floor(s.nodes[a.node], a.cursor))
    && (a.Decided? ==> Floor(s.nodes[a.node], a.through) && a.through <= s.nodes[a.node].checkpoint)
  }

  /** A pending adoption was begun because the cursor row was below its target. */
  ghost predicate AdoptionWellFormed(node: Node) {
    && node.cursor in node.recoverable
    && (node.adopting.Some? ==> node.adopting.value.loaded < node.adopting.value.target)
  }

  ghost predicate DurableInv(s: State) {
    && Anchored(s)
    && (forall n | n in s.nodes :: AdoptionWellFormed(s.nodes[n]))
    && (forall id | id in s.advances :: AdvanceAnchored(s, s.advances[id]))
  }

  /** With atomic store calls no step of a replica, not even a crash, lowers a durable floor. */
  lemma NodeStepKeepsFloor(mode: Mode, s: State, node: Node, step: NodeStep, x: Seq64)
    requires AdoptionWellFormed(node) && NodeEnabled(mode, s, node, step) && !mode.tornStores && Floor(node, x)
    ensures Floor(ApplyNode(node, step), x) && AdoptionWellFormed(ApplyNode(node, step))
    ensures node.checkpoint <= ApplyNode(node, step).checkpoint
  {
    assert x <= node.cursor;
  }

  lemma AtNodeKeepsAnchors(mode: Mode, s: State, step: Step)
    requires DurableInv(s) && Enabled(mode, s, step) && !mode.tornStores && step.AtNode?
    ensures DurableInv(Apply(mode, s, step))
  {
    var t := Apply(mode, s, step);
    var node := s.nodes[step.n];
    forall x: Seq64 | Floor(node, x) ensures Floor(t.nodes[step.n], x) {
      NodeStepKeepsFloor(mode, s, node, step.step, x);
    }
    NodeStepKeepsFloor(mode, s, node, step.step, 0);
    var w :| w in s.nodes && Floor(s.nodes[w], s.boundary) && s.boundary <= s.nodes[w].checkpoint;
    assert w in t.nodes && Floor(t.nodes[w], t.boundary) && t.boundary <= t.nodes[w].checkpoint;
    forall id | id in t.advances ensures AdvanceAnchored(t, t.advances[id]) {
      assert AdvanceAnchored(s, s.advances[id]);
    }
  }

  lemma AtAdvanceKeepsAnchors(mode: Mode, s: State, step: Step)
    requires DurableInv(s) && Enabled(mode, s, step) && !mode.tornStores && step.AtAdvance?
    ensures DurableInv(Apply(mode, s, step))
  {
    var t := Apply(mode, s, step);
    var a := s.advances[step.id];
    var node := s.nodes[a.node];
    assert AdvanceAnchored(s, a);
    if step.move.ConfirmWrite? {
      forall x: Seq64 | Floor(node, x) ensures Floor(t.nodes[a.node], x) {
        assert x <= node.cursor;
      }
    }
    if step.move.Decide? {
      DecisionRespectsGates(node, a, step.move.minISRMatch);
    }
    var w :| w in s.nodes && Floor(s.nodes[w], s.boundary) && s.boundary <= s.nodes[w].checkpoint;
    assert Floor(t.nodes[w], s.boundary) && s.boundary <= t.nodes[w].checkpoint;
    if t.boundary != s.boundary {
      assert Floor(t.nodes[a.node], t.boundary) && t.boundary <= t.nodes[a.node].checkpoint;
    }
    forall id | id in t.advances ensures AdvanceAnchored(t, t.advances[id]) {
      if id != step.id {
        assert AdvanceAnchored(s, s.advances[id]);
      }
    }
  }

  lemma StepKeepsAnchors(mode: Mode, s: State, step: Step)
    requires DurableInv(s) && Enabled(mode, s, step) && !mode.tornStores
    ensures DurableInv(Apply(mode, s, step))
  {
    var t := Apply(mode, s, step);
    if step.AtNode? {
      AtNodeKeepsAnchors(mode, s, step);
    } else if step.AtAdvance? {
      AtAdvanceKeepsAnchors(mode, s, step);
    } else {
      var w :| w in s.nodes && Floor(s.nodes[w], s.boundary) && s.boundary <= s.nodes[w].checkpoint;
      assert w in t.nodes && Floor(t.nodes[w], t.boundary) && t.boundary <= t.nodes[w].checkpoint;
      forall id | id in t.advances ensures AdvanceAnchored(t, t.advances[id]) {
        if id in s.advances {
          assert AdvanceAnchored(s, s.advances[id]);
        }
      }
    }
  }

  lemma {:induction false} RunKeepsAnchors(mode: Mode, s: State, steps: seq<Step>)
    requires DurableInv(s) && !mode.tornStores && Run(mode, s, steps).Some?
    ensures DurableInv(Run(mode, s, steps).value)
    decreases |steps|
  {
    if steps != [] {
      StepKeepsAnchors(mode, s, steps[0]);
      RunKeepsAnchors(mode, Apply(mode, s, steps[0]), steps[1..]);
    }
  }

  /** One replay pass commits, delivers and stores the next sequence. */
  lemma ReplayOneMore(mode: Mode, q: Seq64, node: Node, advances: map<nat, Advance>, accepted: set<Seq64>)
    requires q < MAX_SEQ && node.cursor == q && node.replay.Idle?
    requires Reachable(mode, OneReplica(q, accepted, 0, node, advances))
    ensures Reachable(mode, OneReplica(q + 1, accepted + {q + 1}, 0, UnsyncedWrite(node, q + 1), advances))
  {
    hide Reachable, UnsyncedWrite;
    var c: Seq64 := q + 1;
    OneReplicaCommits(mode, q, accepted, node, advances);
    OneReplicaMove(mode, c, accepted, node, advances, BeginPass);
    OneReplicaMove(mode, c, accepted, node.(replay := Pass(q)), advances, Observe(c, 1));
    OneReplicaDelivers(mode, c, accepted, node.(replay := Batch(q, c, q)), advances);
    StoreOneMore(mode, q, node, advances, accepted + {c});
  }

  lemma StoreOneMore(mode: Mode, q: Seq64, node: Node, advances: map<nat, Advance>, accepted: set<Seq64>)
    requires q < MAX_SEQ && node.cursor == q && node.replay.Idle?
    requires Reachable(mode, OneReplica(q + 1, accepted, 0, node.(replay := Batch(q, q + 1, q + 1)), advances))
    ensures Reachable(mode, OneReplica(q + 1, accepted, 0, UnsyncedWrite(node, q + 1), advances))
  {
    var c: Seq64 := q + 1;
    OneReplicaMove(mode, c, accepted, node.(replay := Batch(q, c, c)), advances, EndBatch);
    OneReplicaMove(mode, c, accepted, node.(replay := Storing(c, q)), advances, StoreWrite(false));
    assert ApplyNode(node.(replay := Storing(c, q)), StoreWrite(false)) == UnsyncedWrite(node, c);
  }

  /** A retention advance begins on the replica and reads its cursor. */
  lemma OneReplicaReadsCursor(mode: Mode, committed: Seq64, accepted: set<Seq64>, node: Node,
      advances: map<nat, Advance>, id: nat, request: Seq64)
    requires Reachable(mode, OneReplica(committed, accepted, 0, node, advances))
    requires id !in advances && node.boundary == 0 < request && 1 <= node.cursor
    ensures Reachable(mode,
      OneReplica(committed, accepted, 0, node, advances[id := Confirming(0, request, node.cursor)]))
  {
    var t := ReachableStep(mode, OneReplica(committed, accepted, 0, node, advances), BeginAdvance(id, 0, request));
    t := ReachableStep(mode, t, AtAdvance(id, ConfirmLoad));
    assert t == OneReplica(committed, accepted, 0, node, advances[id := Confirming(0, request, node.cursor)]);
  }

  /** The cursor that an advance has read is written back, synced. */
  lemma OneReplicaConfirms(mode: Mode, s: State, id: nat) returns (t: State)
    requires Reachable(mode, s) && s.nodes.Keys == {0} && mode.tornStores
    requires id in s.advances && s.advances[id].Confirming? && s.advances[id].node == 0
    ensures Reachable(mode, t) && t.boundary == s.boundary && t.epoch == s.epoch && t.nodes.Keys == {0}
    ensures t.nodes[0] == SyncedWrite(s.nodes[0], s.advances[id].loaded)
    ensures t.advances == s.advances[id := Confirmed(0, s.advances[id].request, s.advances[id].loaded)]
  {
    t := ReachableStep(mode, s, AtAdvance(id, ConfirmWrite));
  }

  /** A confirmed advance moves the boundary to 2. */
  lemma OneReplicaAdvancesToTwo(mode: Mode, s: State, id: nat) returns (t: State)
    requires Reachable(mode, s) && s.nodes.Keys == {0} && s.boundary == s.nodes[0].boundary == 0
    requires id in s.advances && s.advances[id] == Confirmed(0, 2, 2) && s.nodes[0].hw == s.nodes[0].checkpoint == 2
    ensures Reachable(mode, t) && t.boundary == 2 && t.nodes == s.nodes && t.advances == s.advances - {id}
  {
    DecideTwo(s.nodes[0]);
    var u := ReachableStep(mode, s, AtAdvance(id, Decide(2)));
    assert u == s.(advances := s.advances[id := Decided(0, s.epoch, 2)]);
    t := ReachableStep(mode, u, AtAdvance(id, CommitAdvance));
  }

  /**
   Two advances on one node whose confirmations overlap: the first reads the cursor at 1, the
   second confirms 2 and moves the boundary to 2, then the first writes 1 back and syncs it.
   */
  lemma TornConfirmLosesAnchor(mode: Mode) returns (t: State)
    requires mode.tornStores
    ensures Reachable(mode, t) && !Anchored(t)
  {
    t := BothReadTheCursor(mode);
    t := OneReplicaConfirms(mode, t, 2);
    t := OneReplicaAdvancesToTwo(mode, t, 2);
    t := OneReplicaConfirms(mode, t, 1);
    assert 1 in t.nodes[0].recoverable;
  }

  lemma BothReadTheCursor(mode: Mode) returns (t: State)
    ensures Reachable(mode, t) && t.boundary == 0
    ensures t.nodes == map[0 := Node(2, {0, 1, 2}, 2, 2, 0, None, Idle)]
    ensures t.advances == map[1 := Confirming(0, 2, 1), 2 := Confirming(0, 2, 2)]
  {
    OneReplicaStarts(mode);
    ReplayOneMore(mode, 0, FreshNode(), map[], {});
    var one := Node(1, {0, 1}, 0, 0, 0, None, Idle);
    assert UnsyncedWrite(FreshNode(), 1) == one && {} + {1} == {1};
    OneReplicaReadsCursor(mode, 1, {1}, one, map[], 1, 2);
    var first := map[1 := Confirming(0, 2, 1)];
    assert map[][1 := Confirming(0, 2, 1)] == first;
    ReplayOneMore(mode, 1, one, first, {1});
    var two := Node(2, {0, 1, 2}, 0, 0, 0, None, Idle);
    assert UnsyncedWrite(one, 2) == two && {1} + {2} == {1, 2};
    OneReplicaMove(mode, 2, {1, 2}, two, first, LearnHW(2));
    OneReplicaMove(mode, 2, {1, 2}, two.(hw := 2), first, WriteCheckpoint(2));
    OneReplicaReadsCursor(mode, 2, {1, 2}, two.(hw := 2, checkpoint := 2), first, 2, 2);
    t := OneReplica(2, {1, 2}, 0, two.(hw := 2, checkpoint := 2), first[2 := Confirming(0, 2, 2)]);
  }

  lemma DecideTwo(node: Node)
    requires node.hw == node.checkpoint == 2
    ensures DecideAdvance(node, Confirmed(0, 2, 2), 2) == 2
  {
    var gates := GatesOf(2, View(0, true, None, 0, 0, 2, 2, 2, node.boundary));
    assert gates[..4] == gates && gates[..0] == [];
    forall k | 0 <= k < 4 ensures gates[..k + 1][..k] == gates[..k] {
    }
    assert Lowest(2, gates[..1]) == 2 && Lowest(2, gates[..2]) == 2 && Lowest(2, gates[..3]) == 2;
  }

  // ------- when a store call that was overtaken does harm

  /** What may happen on a node between a store call's read and write: a step, or another confirmation's write. */
  datatype RowEvent = ByStep(step: NodeStep) | ByConfirm(row: Seq64)

  datatype RowWrite = RowWrite(row: Seq64, synced: bool)

  function AfterEvent(node: Node, e: RowEvent): Node {
    match e
    case ByStep(step) => ApplyNode(node, step)
    case ByConfirm(row) => SyncedWrite(node, row)
  }

  function AfterEvents(node: Node, events: seq<RowEvent>): Node
    decreases |events|
  {
    if events == [] then node
    else AfterEvent(AfterEvents(node, events[..|events| - 1]), events[|events| - 1])
  }

  /** The cursor row that an event leaves on disk, and whether a crash can no longer go back behind it. */
  function Written(node: Node, e: RowEvent): Option<RowWrite> {
    match e
    case ByConfirm(row) => Some(RowWrite(row, true))
    case ByStep(Crash(recovered, _)) => Some(RowWrite(recovered, true))
    case ByStep(JumpWrite) =>
      if node.replay.Jumping? && node.replay.loaded <= node.replay.target then Some(RowWrite(node.replay.target, true))
        else None
    case ByStep(StoreWrite(_)) =>
      if node.replay.Storing? && node.replay.loaded < node.replay.target then Some(RowWrite(node.replay.target, false))
        else None
    case ByStep(AdoptWrite) => if node.adopting.Some? then Some(RowWrite(node.adopting.value.target, true)) else None
    case ByStep(_) => None
  }

  /** Since the row was read at x, a higher one was synced, and nothing at or below x was written after that. */
  predicate Overtaken(node: Node, events: seq<RowEvent>, x: Seq64)
    decreases |events|
  {
    events != [] &&
    var before, w := events[..|events| - 1], Written(AfterEvents(node, events[..|events| - 1]), events[|events| - 1]);
    if w.None? || (w.value.row > x && !w.value.synced) then Overtaken(node, before, x) else w.value.row > x
  }

  lemma EventWrites(node: Node, e: RowEvent)
    ensures var w, after := Written(node, e), AfterEvent(node, e);
      after.recoverable == if w.None? then node.recoverable
                           else if w.value.synced then {w.value.row} else node.recoverable + {w.value.row}
  {
  }

  lemma {:induction false} RecoversAtMostUnlessOvertaken(node: Node, events: seq<RowEvent>, x: Seq64)
    requires x in node.recoverable
    ensures AfterEvents(node, events).recoverable != {}
    ensures (exists v :: v in AfterEvents(node, events).recoverable && v <= x) <==> !Overtaken(node, events, x)
    decreases |events|
  {
    if events != [] {
      var n := |events| - 1;
      var m := AfterEvents(node, events[..n]);
      RecoversAtMostUnlessOvertaken(node, events[..n], x);
      EventWrites(m, events[n]);
      var w := Written(m, events[n]);
      if w.Some? {
        assert w.value.row in AfterEvent(m, events[n]).recoverable;
      }
      hide ApplyNode, Written, SyncedWrite;
      if v :| v in m.recoverable && v <= x {
        assert w.None? || !w.value.synced ==> v in AfterEvent(m, events[n]).recoverable;
      }
    }
  }

  /**
   Which torn writes do harm. A store call reads the cursor row and later writes it back,
   synced; in between the node may do anything, crash included. The write keeps every durable
   floor if and only if the call was not overtaken by a higher synced row.
   */
  lemma WriteKeepsFloorsExactly(node: Node, events: seq<RowEvent>)
    requires node.cursor in node.recoverable
    ensures var m := AfterEvents(node, events);
      (forall x: Seq64 | Floor(m, x) :: Floor(SyncedWrite(m, node.cursor), x))
        <==> !Overtaken(node, events, node.cursor)
  {
    var m, loaded := AfterEvents(node, events), node.cursor;
    RecoversAtMostUnlessOvertaken(node, events, loaded);
    hide AfterEvents, Overtaken;
    if Overtaken(node, events, loaded) {
      var v :| v in m.recoverable;
      assert Floor(m, loaded + 1) && !Floor(SyncedWrite(m, loaded), loaded + 1);
    }
  }

  /**
   The durability theorem. In every reachable state some replica's dispatch cursor and HW
   checkpoint survive any crash at or above the boundary; and this holds exactly when a store
   call cannot be overtaken between its read and its write of the cursor row.
   */
  lemma AnchoredExactlyWithAtomicStores(mode: Mode)
    ensures (forall t | Reachable(mode, t) :: Anchored(t)) <==> !mode.tornStores
  {
    if mode.tornStores {
      var t := TornConfirmLosesAnchor(mode);
    } else {
      forall t | Reachable(mode, t) ensures Anchored(t) {
        var s: State, steps: seq<Step> :| Init(s) && Run(mode, s, steps) == Some(t);
        var w :| w in s.nodes;
        assert Floor(s.nodes[w], s.boundary);
        RunKeepsAnchors(mode, s, steps);
      }
    }
  }

  /** After an anchored state, crashing every replica still leaves one whose cursor is not below the boundary. */
  lemma CrashOfAllKeepsACursorAtTheBoundary(s: State, recovered: map<nat, Seq64>)
    requires Anchored(s) && recovered.Keys == s.nodes.Keys
    requires forall n | n in s.nodes :: recovered[n] in s.nodes[n].recoverable
    ensures exists n :: n in recovered && s.boundary <= recovered[n]
  {
    var w :| w in s.nodes && Floor(s.nodes[w], s.boundary) && s.boundary <= s.nodes[w].checkpoint;
    assert recovered[w] in s.nodes[w].recoverable;
  }
}
