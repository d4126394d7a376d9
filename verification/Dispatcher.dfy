/**
 The sharded committed-message dispatcher (internal/app/deliveryrouting.go:151-440) as a state
 machine. A step is one critical section, one channel operation, or one context switch of a
 goroutine; a run is any sequence of steps, and a step that is not enabled changes nothing.
 */
module Dispatcher {
  import opened Options
  import opened Sequences
  import opened Subsequences

  type Channel = nat

  datatype Item = Item(channel: Channel, id: nat)

  /** Queues 0..shards-1 are the shards; queue `shards` is the conversation fallback. */
  datatype Config = Config(shards: nat, depth: nat, hash: Channel -> nat, conversation: bool, workersDisabled: bool)

  ghost predicate ValidConfig(cfg: Config) {
    cfg.shards > 0 && cfg.depth > 0 && forall c :: cfg.hash(c) < cfg.shards
  }

  /** One queue with its history: what it accepted, what was routed from it, and how much was dropped. */
  datatype Lane = Lane(accepted: seq<Item>, routed: seq<Item>, queue: seq<Item>, dropped: nat)

  datatype Worker = Worker(gen: nat, queue: nat)

  /** A worker waits, or has received an item and not yet looked at its context, or routes one. */
  datatype Phase = Idle | Holding(item: Item) | Routing

  /** The fields guarded by the dispatcher's mutex. A generation stands for one start and its context. */
  datatype Control = Control(started: nat, cancel: Option<nat>, done: Option<nat>, running: bool, stopping: bool)

  datatype State = State(
    control: Control,
    lanes: seq<Lane>,
    submitted: seq<Item>,
    workers: map<Worker, Phase>,
    scoped: nat,
    toCancel: set<nat>,
    abandoning: set<nat>,
    stopped: set<nat>,
    cancelled: set<nat>,
    waited: set<nat>,
    closed: set<nat>)

  datatype Step =
    | Start
    | Submit(item: Item)
    | SubmitScoped
    | ScopedReturns
    | Take(w: Worker)
    | Route(w: Worker)
    | Routed(w: Worker)
    | Exit(w: Worker)
    | StopBegin
    | Cancel(gen: nat)
    | AbandonOne(gen: nat, queue: nat)
    | AbandonEnd(gen: nat)
    | ParentCancel(gen: nat)
    | WaitReturns(gen: nat)
    | Close(gen: nat)
    | Finish(gen: nat)

  function Init(cfg: Config): State {
    State(Control(0, None, None, false, false), seq(cfg.shards + 1, _ => Lane([], [], [], 0)), [], map[], 0, {}, {}, {},
      {}, {}, {})
  }

  // ---------------------------------------------------------------- the critical sections

  predicate MayStart(c: Control) {
    c.cancel.None? && !c.running && !c.stopping
  }

  function Started(c: Control): Control {
    Control(c.started + 1, Some(c.started), Some(c.started), true, false)
  }

  /** The workers of a new generation: the fallback worker, and one per shard. */
  function NewWorkers(cfg: Config, gen: nat): map<Worker, Phase> {
    map i | 0 <= i <= cfg.shards && (if i == cfg.shards then cfg.conversation else !cfg.workersDisabled) ::
      Worker(gen, i) := Idle
  }

  predicate Admits(c: Control) {
    c.running && !c.stopping
  }

  function Enqueue(lane: Lane, item: Item): Lane {
    lane.(accepted := lane.accepted + [item], queue := lane.queue + [item])
  }

  /** An admitted item goes to its shard; when that is full, to the fallback if there is room; else nowhere. */
  function Enqueued(cfg: Config, lanes: seq<Lane>, item: Item): seq<Lane>
    requires ValidConfig(cfg) && |lanes| == cfg.shards + 1
  {
    var i := cfg.hash(item.channel);
    if |lanes[i].queue| < cfg.depth then lanes[i := Enqueue(lanes[i], item)]
    else if cfg.conversation && |lanes[cfg.shards].queue| < cfg.depth
      then lanes[cfg.shards := Enqueue(lanes[cfg.shards], item)]
    else lanes
  }

  function StopBegun(c: Control): Control {
    if c.cancel.None? && c.stopping && c.done.Some? then c
    else c.(cancel := None, running := false, stopping := c.stopping || c.cancel.Some?)
  }

  function Finished(c: Control, gen: nat): Control {
    if c.done == Some(gen) then c.(done := None, stopping := false) else c
  }

  function DropHead(lane: Lane): Lane
    requires lane.queue != []
  {
    lane.(queue := lane.queue[1..], dropped := lane.dropped + 1)
  }

  // ---------------------------------------------------------------- steps

  predicate Shape(cfg: Config, s: State) {
    |s.lanes| == cfg.shards + 1 && forall w :: w in s.workers ==> w.queue <= cfg.shards
  }

  function Do(cfg: Config, s: State, step: Step): State
    requires ValidConfig(cfg) && Shape(cfg, s)
  {
    match step
    case Start =>
      if !MayStart(s.control) then s
      else s.(control := Started(s.control), workers := s.workers + NewWorkers(cfg, s.control.started))
    case Submit(item) =>
      if !Admits(s.control) then s
      else s.(submitted := s.submitted + [item], lanes := Enqueued(cfg, s.lanes, item))
    case SubmitScoped =>
      if Admits(s.control) then s.(scoped := s.scoped + 1) else s
    case ScopedReturns =>
      if s.scoped > 0 then s.(scoped := s.scoped - 1) else s
    case Take(w) =>
      if !(w in s.workers && s.workers[w].Idle? && s.lanes[w.queue].queue != []) then s
      else
        var lane := s.lanes[w.queue];
        s.(workers := s.workers[w := Holding(lane.queue[0])],
          lanes := s.lanes[w.queue := lane.(queue := lane.queue[1..])])
    case Route(w) =>
      if !(w in s.workers && s.workers[w].Holding? && w.gen !in s.cancelled) then s
      else
        var lane := s.lanes[w.queue];
        s.(workers := s.workers[w := Routing],
          lanes := s.lanes[w.queue := lane.(routed := lane.routed + [s.workers[w].item])])
    case Routed(w) =>
      if w in s.workers && s.workers[w].Routing? then s.(workers := s.workers[w := Idle]) else s
    case Exit(w) =>
      if !(w in s.workers && !s.workers[w].Routing? && w.gen in s.cancelled) then s
      else
        var lane := s.lanes[w.queue];
        s.(workers := s.workers - {w},
           lanes := if s.workers[w].Holding? then s.lanes[w.queue := lane.(dropped := lane.dropped + 1)] else s.lanes)
    case StopBegin =>
      if s.control.cancel.None? then s.(control := StopBegun(s.control))
      else
        var g := s.control.cancel.value;
        s.(control := StopBegun(s.control), toCancel := s.toCancel + {g}, stopped := s.stopped + {g})
    case Cancel(g) =>
      if g in s.toCancel
        then s.(toCancel := s.toCancel - {g}, cancelled := s.cancelled + {g}, abandoning := s.abandoning + {g}) else s
    case AbandonOne(g, i) =>
      if g in s.abandoning && i <= cfg.shards && s.lanes[i].queue != []
        then s.(lanes := s.lanes[i := DropHead(s.lanes[i])]) else s
    case AbandonEnd(g) => s.(abandoning := s.abandoning - {g})
    case ParentCancel(g) => if g < s.control.started then s.(cancelled := s.cancelled + {g}) else s
    case WaitReturns(g) =>
      if g < s.control.started && s.workers == map[] && s.scoped == 0 then s.(waited := s.waited + {g}) else s
    case Close(g) => if g in s.waited then s.(closed := s.closed + {g}) else s
    case Finish(g) => if g in s.stopped && g in s.closed then s.(control := Finished(s.control, g)) else s
  }

  // ---------------------------------------------------------------- generations

  /** A generation is alive while one of its workers is. */
  ghost predicate Alive(s: State, gen: nat) {
    exists i: nat :: Worker(gen, i) in s.workers
  }

  ghost predicate ControlInv(s: State) {
    var c, last := s.control, s.control.started - 1;
    && (c.running <==> c.cancel.Some?) && (c.cancel.Some? ==> c.cancel.value == last)
    && (c.done.Some? ==> c.done.value == last) && !(c.running && c.stopping)
    && (c.running || c.stopping <==> c.done.Some?)
    && (!c.running && !c.stopping && c.started > 0 ==> last in s.closed)
    && (forall w :: w in s.workers ==> w.gen == last)
    && (last in s.waited ==> s.workers == map[])
    && s.closed <= s.waited && (forall g :: g in s.waited ==> g <= last)
    && (forall g :: g in s.stopped ==> g <= last) && (c.running ==> last !in s.stopped)
    && s.toCancel <= s.stopped && s.abandoning <= s.cancelled && (forall g :: g in s.cancelled ==> g <= last)
  }

  lemma StartKeepsControl(cfg: Config, s: State)
    requires ValidConfig(cfg) && Shape(cfg, s) && ControlInv(s) && MayStart(s.control)
    ensures Shape(cfg, Do(cfg, s, Start)) && ControlInv(Do(cfg, s, Start))
  {
    assert s.workers == map[];
  }

  lemma StepKeepsControl(cfg: Config, s: State, step: Step)
    requires ValidConfig(cfg) && Shape(cfg, s) && ControlInv(s)
    ensures Shape(cfg, Do(cfg, s, step)) && ControlInv(Do(cfg, s, step))
  {
    hide NewWorkers, Enqueue, DropHead;
    if step.Start? && MayStart(s.control) {
      StartKeepsControl(cfg, s);
    }
  }

  // ---------------------------------------------------------------- queues

  /** The item that the queue's worker holds, if any. */
  function InHand(s: State, i: nat): seq<Item> {
    var w := Worker(if s.control.started == 0 then 0 else s.control.started - 1, i);
    if w in s.workers && s.workers[w].Holding? then [s.workers[w].item] else []
  }

  /** What was routed, what is in hand and what is queued were accepted in this order; the rest was dropped. */
  ghost predicate LaneInv(cfg: Config, lane: Lane, hand: seq<Item>) {
    && Sub(lane.routed + hand + lane.queue, lane.accepted)
    && |lane.routed| + |hand| + |lane.queue| + lane.dropped == |lane.accepted|
    && |lane.queue| <= cfg.depth
  }

  ghost predicate OwnChannels(cfg: Config, i: nat, items: seq<Item>) {
    i < cfg.shards ==> forall item :: item in items ==> cfg.hash(item.channel) == i
  }

  ghost predicate FlowInv(cfg: Config, s: State) {
    forall i: nat | i < |s.lanes| ::
      && LaneInv(cfg, s.lanes[i], InHand(s, i))
      && Sub(s.lanes[i].accepted, s.submitted) && OwnChannels(cfg, i, s.lanes[i].accepted)
  }

  lemma EnqueueKeeps(cfg: Config, lane: Lane, hand: seq<Item>, item: Item)
    requires LaneInv(cfg, lane, hand) && |lane.queue| < cfg.depth
    ensures LaneInv(cfg, Enqueue(lane, item), hand)
  {
    SubSnoc(lane.routed + hand + lane.queue, lane.accepted, item);
    assert lane.routed + hand + lane.queue + [item] == lane.routed + hand + (lane.queue + [item]);
  }

  lemma TakeKeeps(cfg: Config, lane: Lane)
    requires LaneInv(cfg, lane, []) && lane.queue != []
    ensures LaneInv(cfg, lane.(queue := lane.queue[1..]), [lane.queue[0]])
  {
    assert lane.routed + [] + lane.queue == lane.routed + [lane.queue[0]] + lane.queue[1..];
  }

  lemma RouteKeeps(cfg: Config, lane: Lane, item: Item)
    requires LaneInv(cfg, lane, [item])
    ensures LaneInv(cfg, lane.(routed := lane.routed + [item]), [])
  {
    assert lane.routed + [item] + lane.queue == (lane.routed + [item]) + [] + lane.queue;
  }

  lemma LetGoKeeps(cfg: Config, lane: Lane, item: Item)
    requires LaneInv(cfg, lane, [item])
    ensures LaneInv(cfg, lane.(dropped := lane.dropped + 1), [])
  {
    SubDrop(lane.routed, item, lane.queue, lane.accepted);
    assert lane.routed + [] + lane.queue == lane.routed + lane.queue;
  }

  lemma DropHeadKeeps(cfg: Config, lane: Lane, hand: seq<Item>)
    requires LaneInv(cfg, lane, hand) && lane.queue != []
    ensures LaneInv(cfg, DropHead(lane), hand)
  {
    assert lane.routed + hand + lane.queue == (lane.routed + hand) + [lane.queue[0]] + lane.queue[1..];
    SubDrop(lane.routed + hand, lane.queue[0], lane.queue[1..], lane.accepted);
  }

  /** One lane takes a submitted item in; the other lanes and all hands stay as they are. */
  lemma OneLaneGrows(cfg: Config, s: State, s': State, i: nat, item: Item)
    requires FlowInv(cfg, s) && i < |s.lanes| && s'.lanes == s.lanes[i := Enqueue(s.lanes[i], item)]
    requires |s.lanes[i].queue| < cfg.depth && (i < cfg.shards ==> cfg.hash(item.channel) == i)
    requires s'.submitted == s.submitted + [item] && s'.control == s.control && s'.workers == s.workers
    ensures FlowInv(cfg, s')
  {
    hide LaneInv, Sub;
    forall j: nat | j < |s'.lanes|
      ensures LaneInv(cfg, s'.lanes[j], InHand(s', j)) && Sub(s'.lanes[j].accepted, s'.submitted)
        && OwnChannels(cfg, j, s'.lanes[j].accepted)
    {
      SubSnoc(s.lanes[j].accepted, s.submitted, item);
      if j == i {
        EnqueueKeeps(cfg, s.lanes[i], InHand(s, i), item);
      }
    }
  }

  lemma NoLaneGrows(cfg: Config, s: State, s': State, item: Item)
    requires FlowInv(cfg, s) && s'.lanes == s.lanes
    requires s'.submitted == s.submitted + [item] && s'.control == s.control && s'.workers == s.workers
    ensures FlowInv(cfg, s')
  {
    hide LaneInv, Sub, OwnChannels;
    forall j: nat | j < |s'.lanes| ensures Sub(s'.lanes[j].accepted, s'.submitted) {
      SubSnoc(s.lanes[j].accepted, s.submitted, item);
    }
  }

  lemma SubmitKeepsFlow(cfg: Config, s: State, item: Item)
    requires ValidConfig(cfg) && Shape(cfg, s) && FlowInv(cfg, s)
    ensures FlowInv(cfg, Do(cfg, s, Submit(item)))
  {
    hide FlowInv, Enqueue;
    if Admits(s.control) {
      var s', i := Do(cfg, s, Submit(item)), cfg.hash(item.channel);
      if |s.lanes[i].queue| < cfg.depth {
        OneLaneGrows(cfg, s, s', i, item);
      } else if cfg.conversation && |s.lanes[cfg.shards].queue| < cfg.depth {
        OneLaneGrows(cfg, s, s', cfg.shards, item);
      } else {
        NoLaneGrows(cfg, s, s', item);
      }
    }
  }

  /** A lane keeps its invariant when only it and its worker change, and every other lane stays as it is. */
  lemma OneLaneKeepsFlow(cfg: Config, s: State, s': State, i: nat)
    requires FlowInv(cfg, s) && |s'.lanes| == |s.lanes| && i < |s.lanes| && s'.submitted == s.submitted
    requires LaneInv(cfg, s'.lanes[i], InHand(s', i)) && s'.lanes[i].accepted == s.lanes[i].accepted
    requires forall j: nat | j < |s.lanes| && j != i :: s'.lanes[j] == s.lanes[j] && InHand(s', j) == InHand(s, j)
    ensures FlowInv(cfg, s')
  {
    hide LaneInv, Sub, InHand, OwnChannels;
  }

  lemma TakeKeepsFlow(cfg: Config, s: State, w: Worker)
    requires ValidConfig(cfg) && Shape(cfg, s) && ControlInv(s) && FlowInv(cfg, s)
    requires w in s.workers && s.workers[w].Idle? && s.lanes[w.queue].queue != []
    ensures FlowInv(cfg, Do(cfg, s, Take(w)))
  {
    hide LaneInv, Sub, OwnChannels;
    assert InHand(s, w.queue) == [];
    TakeKeeps(cfg, s.lanes[w.queue]);
    OneLaneKeepsFlow(cfg, s, Do(cfg, s, Take(w)), w.queue);
  }

  lemma RouteKeepsFlow(cfg: Config, s: State, w: Worker)
    requires ValidConfig(cfg) && Shape(cfg, s) && ControlInv(s) && FlowInv(cfg, s)
    requires w in s.workers && s.workers[w].Holding?
    ensures FlowInv(cfg, Do(cfg, s, Route(w)))
  {
    hide LaneInv, Sub, OwnChannels;
    if w.gen !in s.cancelled {
      assert InHand(s, w.queue) == [s.workers[w].item];
      RouteKeeps(cfg, s.lanes[w.queue], s.workers[w].item);
      OneLaneKeepsFlow(cfg, s, Do(cfg, s, Route(w)), w.queue);
    }
  }

  lemma ExitKeepsFlow(cfg: Config, s: State, w: Worker)
    requires ValidConfig(cfg) && Shape(cfg, s) && ControlInv(s) && FlowInv(cfg, s)
    requires w in s.workers && !s.workers[w].Routing?
    ensures FlowInv(cfg, Do(cfg, s, Exit(w)))
  {
    hide LaneInv, Sub, OwnChannels;
    if w.gen in s.cancelled {
      if s.workers[w].Holding? {
        assert InHand(s, w.queue) == [s.workers[w].item];
        LetGoKeeps(cfg, s.lanes[w.queue], s.workers[w].item);
      }
      OneLaneKeepsFlow(cfg, s, Do(cfg, s, Exit(w)), w.queue);
    }
  }

  lemma AbandonKeepsFlow(cfg: Config, s: State, g: nat, i: nat)
    requires ValidConfig(cfg) && Shape(cfg, s) && FlowInv(cfg, s)
    ensures FlowInv(cfg, Do(cfg, s, AbandonOne(g, i)))
  {
    hide LaneInv, Sub, OwnChannels;
    if g in s.abandoning && i <= cfg.shards && s.lanes[i].queue != [] {
      DropHeadKeeps(cfg, s.lanes[i], InHand(s, i));
      OneLaneKeepsFlow(cfg, s, Do(cfg, s, AbandonOne(g, i)), i);
    }
  }

  /** A step that moves no item keeps every lane and every hand. */
  lemma SameLanesKeepFlow(cfg: Config, s: State, s': State)
    requires FlowInv(cfg, s) && s'.lanes == s.lanes && s'.submitted == s.submitted
    requires forall i: nat | i < |s.lanes| :: InHand(s', i) == InHand(s, i)
    ensures FlowInv(cfg, s')
  {
    hide LaneInv, Sub, InHand, OwnChannels;
  }

  lemma StepKeepsFlow(cfg: Config, s: State, step: Step)
    requires ValidConfig(cfg) && Shape(cfg, s) && ControlInv(s) && FlowInv(cfg, s)
    ensures FlowInv(cfg, Do(cfg, s, step))
  {
    hide FlowInv;
    var s' := Do(cfg, s, step);
    match step {
      case Submit(item) => SubmitKeepsFlow(cfg, s, item);
      case Take(w) =>
        if w in s.workers && s.workers[w].Idle? && s.lanes[w.queue].queue != [] {
          TakeKeepsFlow(cfg, s, w);
        }
      case Route(w) =>
        if w in s.workers && s.workers[w].Holding? {
          RouteKeepsFlow(cfg, s, w);
        }
      case Exit(w) =>
        if w in s.workers && !s.workers[w].Routing? {
          ExitKeepsFlow(cfg, s, w);
        }
      case AbandonOne(g, i) => AbandonKeepsFlow(cfg, s, g, i);
      case Start =>
        if MayStart(s.control) {
          assert s.workers == map[];
        }
        SameLanesKeepFlow(cfg, s, s');
      case _ => SameLanesKeepFlow(cfg, s, s');
    }
  }

  // ---------------------------------------------------------------- runs

  ghost predicate Inv(cfg: Config, s: State) {
    Shape(cfg, s) && ControlInv(s) && FlowInv(cfg, s)
  }

  /** The state after a run. */
  ghost function Run(cfg: Config, steps: seq<Step>): (s: State)
    requires ValidConfig(cfg)
    ensures Inv(cfg, s)
    decreases |steps|
  {
    if steps == [] then InitIsValid(cfg); Init(cfg)
    else
      var s := Run(cfg, steps[..|steps| - 1]);
      StepKeepsControl(cfg, s, steps[|steps| - 1]);
      StepKeepsFlow(cfg, s, steps[|steps| - 1]);
      Do(cfg, s, steps[|steps| - 1])
  }

  lemma InitIsValid(cfg: Config)
    requires ValidConfig(cfg)
    ensures Inv(cfg, Init(cfg))
  {
  }

  function ChannelOf(item: Item): Channel { item.channel }

  /**
   In every run, for every channel: what its shard's worker routed is an in-order subsequence
   of the channel's accepted submissions, and no other shard routes the channel at all.
   */
  lemma RoutedInOrder(cfg: Config, steps: seq<Step>, c: Channel)
    requires ValidConfig(cfg)
    ensures var s := Run(cfg, steps);
      && Sub(Only(s.lanes[cfg.hash(c)].routed, ChannelOf, c), Only(s.submitted, ChannelOf, c))
      && forall i, item | 0 <= i < cfg.shards && i != cfg.hash(c) && item in s.lanes[i].routed :: item.channel != c
  {
    var s := Run(cfg, steps);
    var i := cfg.hash(c);
    RoutedWasAccepted(cfg, s, i);
    SubTransitive(s.lanes[i].routed, s.lanes[i].accepted, s.submitted);
    SubOnly(s.lanes[i].routed, s.submitted, ChannelOf, c);
    forall j, item | 0 <= j < cfg.shards && j != i && item in s.lanes[j].routed ensures item.channel != c {
      RoutedWasAccepted(cfg, s, j);
      SubMembers(s.lanes[j].routed, s.lanes[j].accepted);
    }
  }

  lemma RoutedWasAccepted(cfg: Config, s: State, i: nat)
    requires FlowInv(cfg, s) && i < |s.lanes|
    ensures Sub(s.lanes[i].routed, s.lanes[i].accepted)
  {
    var lane, hand := s.lanes[i], InHand(s, i);
    assert lane.routed + hand + lane.queue == lane.routed + (hand + lane.queue);
    SubPrefix(lane.routed, hand + lane.queue, lane.accepted);
  }

  lemma {:induction false} SubPrefix(p: seq<Item>, q: seq<Item>, b: seq<Item>)
    requires Sub(p + q, b)
    ensures Sub(p, b)
    decreases |q|
  {
    if q == [] {
      assert p + q == p;
    } else {
      var q', x := q[..|q| - 1], q[|q| - 1];
      assert p + q == (p + q') + [x] + [];
      SubDrop(p + q', x, [], b);
      assert (p + q') + [] == p + q';
      SubPrefix(p, q', b);
    }
  }

  /** In every run at most one generation of workers is alive, and no queue is over its depth. */
  lemma OneGeneration(cfg: Config, steps: seq<Step>, g: nat, h: nat)
    requires ValidConfig(cfg)
    ensures var s := Run(cfg, steps);
      && (Alive(s, g) && Alive(s, h) ==> g == h)
      && forall i: nat | i < |s.lanes| :: |s.lanes[i].queue| <= cfg.depth
  {
    var s := Run(cfg, steps);
    assert FlowInv(cfg, s);
  }

  /** Where nothing was dropped, nothing is missing: routed, in hand and queued are the accepted items, in order. */
  lemma NothingMissing(cfg: Config, steps: seq<Step>, i: nat)
    requires ValidConfig(cfg) && i <= cfg.shards
    ensures var s := Run(cfg, steps); var lane := s.lanes[i];
      lane.dropped == 0 <==> lane.routed + InHand(s, i) + lane.queue == lane.accepted
  {
    var s := Run(cfg, steps);
    var lane := s.lanes[i];
    assert LaneInv(cfg, lane, InHand(s, i));
    SubLength(lane.routed + InHand(s, i) + lane.queue, lane.accepted);
  }

  // ---------------------------------------------------------------- what happens to one item

  lemma AcceptedIsKept(cfg: Config, s: State, step: Step, i: nat)
    requires ValidConfig(cfg) && Shape(cfg, s) && i <= cfg.shards
    ensures Shape(cfg, Do(cfg, s, step)) && s.lanes[i].accepted <= Do(cfg, s, step).lanes[i].accepted
  {
  }

  /** A submission whose shard has room is taken by that shard, whatever came before and whatever follows. */
  lemma {:induction false} RoomIsUsed(cfg: Config, steps: seq<Step>, k: nat, item: Item)
    requires ValidConfig(cfg) && k < |steps| && steps[k] == Submit(item)
    requires var s := Run(cfg, steps[..k]);
      s.control.running && !s.control.stopping && |s.lanes[cfg.hash(item.channel)].queue| < cfg.depth
    ensures item in Run(cfg, steps).lanes[cfg.hash(item.channel)].accepted
    decreases |steps|
  {
    var init, last, i := steps[..|steps| - 1], steps[|steps| - 1], cfg.hash(item.channel);
    LastApart(steps);
    RunSnoc(cfg, init, last);
    if k < |init| {
      assert init[..k] == steps[..k];
      RoomIsUsed(cfg, init, k, item);
      hide Run, Do, FlowInv, ControlInv;
      AcceptedIsKept(cfg, Run(cfg, init), last, i);
    } else {
      hide Run, FlowInv, ControlInv;
      SubmitTakes(cfg, Run(cfg, init), item);
    }
  }

  lemma SubmitTakes(cfg: Config, s: State, item: Item)
    requires ValidConfig(cfg) && Shape(cfg, s) && s.control.running && !s.control.stopping
    requires |s.lanes[cfg.hash(item.channel)].queue| < cfg.depth
    ensures item in Do(cfg, s, Submit(item)).lanes[cfg.hash(item.channel)].accepted
  {
    var i := cfg.hash(item.channel);
    assert (s.lanes[i].accepted + [item])[|s.lanes[i].accepted|] == item;
  }

  /** A waiting worker of an uncancelled generation takes its queue's first item and routes it. */
  lemma QueuedItemIsRouted(cfg: Config, s: State, w: Worker)
    requires ValidConfig(cfg) && Shape(cfg, s) && w in s.workers && s.workers[w].Idle? && w.gen !in s.cancelled
    requires s.lanes[w.queue].queue != []
    ensures var first := s.lanes[w.queue].queue[0]; var t := Do(cfg, s, Take(w));
      && Shape(cfg, t) && t.lanes[w.queue].queue == s.lanes[w.queue].queue[1..]
      && t.workers == s.workers[w := Holding(first)]
      && var u := Do(cfg, t, Route(w));
        && u.lanes[w.queue].routed == s.lanes[w.queue].routed + [first]
        && u.lanes[w.queue].queue == s.lanes[w.queue].queue[1..] && u.lanes[w.queue].dropped == s.lanes[w.queue].dropped
  {
  }

  // ---------------------------------------------------------------- losses without a stop

  /** A run that goes on from s. */
  ghost function RunFrom(cfg: Config, s: State, steps: seq<Step>): (t: State)
    requires ValidConfig(cfg) && Inv(cfg, s)
    ensures Inv(cfg, t)
    decreases |steps|
  {
    if steps == [] then s
    else
      var m := RunFrom(cfg, s, steps[..|steps| - 1]);
      StepKeepsControl(cfg, m, steps[|steps| - 1]);
      StepKeepsFlow(cfg, m, steps[|steps| - 1]);
      Do(cfg, m, steps[|steps| - 1])
  }

  lemma RunFromSnoc(cfg: Config, s: State, steps: seq<Step>, step: Step)
    requires ValidConfig(cfg) && Inv(cfg, s)
    ensures RunFrom(cfg, s, steps + [step]) == Do(cfg, RunFrom(cfg, s, steps), step)
  {
    assert (steps + [step])[..|steps|] == steps;
  }

  /** A generation is running, and neither a stop nor its parent context has cancelled it. */
  predicate RunsUncancelled(s: State) {
    s.control.running && s.control.started > 0 && s.control.started - 1 !in s.cancelled
  }

  /** No stop of an earlier generation still has to cancel it or to empty the queues. */
  predicate NoUnfinishedStop(s: State) {
    s.toCancel == {} && s.abandoning == {}
  }

  /** Nobody stops the dispatcher, and no parent context ends. */
  ghost predicate Undisturbed(steps: seq<Step>) {
    forall k | 0 <= k < |steps| :: !steps[k].StopBegin? && !steps[k].ParentCancel?
  }

  lemma QuietStepDropsNothing(cfg: Config, s: State, step: Step, i: nat)
    requires ValidConfig(cfg) && Shape(cfg, s) && ControlInv(s) && i <= cfg.shards
    requires RunsUncancelled(s) && NoUnfinishedStop(s) && !step.StopBegin? && !step.ParentCancel?
    ensures var t := Do(cfg, s, step);
      && RunsUncancelled(t) && NoUnfinishedStop(t) && |t.lanes| == |s.lanes| && t.lanes[i].dropped == s.lanes[i].dropped
  {
  }

  lemma {:induction false} QuietRunDropsNothing(cfg: Config, s: State, steps: seq<Step>, i: nat)
    requires ValidConfig(cfg) && Inv(cfg, s) && i <= cfg.shards
    requires RunsUncancelled(s) && NoUnfinishedStop(s) && Undisturbed(steps)
    ensures var t := RunFrom(cfg, s, steps);
      RunsUncancelled(t) && NoUnfinishedStop(t) && t.lanes[i].dropped == s.lanes[i].dropped
    decreases |steps|
  {
    if steps != [] {
      hide Do, FlowInv, ControlInv, RunsUncancelled, NoUnfinishedStop;
      var n := |steps| - 1;
      QuietRunDropsNothing(cfg, s, steps[..n], i);
      QuietStepDropsNothing(cfg, RunFrom(cfg, s, steps[..n]), steps[n], i);
    }
  }

  /** After one more submission to a shard its queue is not empty, also when the shard was full. */
  lemma SubmitFillsQueue(cfg: Config, s: State, item: Item)
    requires ValidConfig(cfg) && Shape(cfg, s) && ControlInv(s) && RunsUncancelled(s)
    ensures var t, i := Do(cfg, s, Submit(item)), cfg.hash(item.channel);
      && t.lanes[i].queue != [] && t.lanes[i].dropped == s.lanes[i].dropped
      && t.toCancel == s.toCancel && t.abandoning == s.abandoning && Shape(cfg, t)
  {
  }

  /** An unfinished stop cancels its own generation, if it still has to, and then takes an item out of a queue. */
  lemma StopTakesItem(cfg: Config, s: State, g: nat, i: nat)
    requires ValidConfig(cfg) && Shape(cfg, s) && i <= cfg.shards && s.lanes[i].queue != []
    requires g in s.toCancel || g in s.abandoning
    ensures var t := if g in s.toCancel then Do(cfg, s, Cancel(g)) else s;
      Shape(cfg, t) && Do(cfg, t, AbandonOne(g, i)).lanes[i].dropped == s.lanes[i].dropped + 1
  {
  }

  /** A submission fills the queue, and some earlier stop is still unfinished then. */
  lemma UnfinishedStart(cfg: Config, s: State, item: Item) returns (g: nat)
    requires ValidConfig(cfg) && Inv(cfg, s) && RunsUncancelled(s) && !NoUnfinishedStop(s)
    ensures var t, i := Do(cfg, s, Submit(item)), cfg.hash(item.channel);
      && Shape(cfg, s) && Shape(cfg, t) && i <= cfg.shards
      && t.lanes[i].queue != [] && t.lanes[i].dropped == s.lanes[i].dropped
      && (g in t.toCancel || g in t.abandoning)
    ensures RunFrom(cfg, s, []) == s
  {
    NoSteps(cfg, s);
    hide FlowInv;
    SubmitFillsQueue(cfg, s, item);
    hide Do, ControlInv;
    g :| g in s.toCancel || g in s.abandoning;
  }

  lemma UnfinishedStopDrops(cfg: Config, s: State, item: Item) returns (steps: seq<Step>)
    requires ValidConfig(cfg) && Inv(cfg, s) && RunsUncancelled(s) && !NoUnfinishedStop(s)
    ensures Undisturbed(steps)
    ensures Shape(cfg, s) && var i := cfg.hash(item.channel);
      RunFrom(cfg, s, steps).lanes[i].dropped > s.lanes[i].dropped
  {
    hide Do, Shape, ControlInv, FlowInv, RunFrom, RunsUncancelled, NoUnfinishedStop;
    var i := cfg.hash(item.channel);
    var g := UnfinishedStart(cfg, s, item);
    var t := Do(cfg, s, Submit(item));
    RunFromSnoc(cfg, s, [], Submit(item));
    WithNothing([Submit(item)]);
    StopTakesItem(cfg, t, g, i);
    if g in t.toCancel {
      steps := [Submit(item), Cancel(g), AbandonOne(g, i)];
      RunFromSnoc(cfg, s, [Submit(item)], Cancel(g));
      RunFromSnoc(cfg, s, [Submit(item)] + [Cancel(g)], AbandonOne(g, i));
      assert steps == [Submit(item)] + [Cancel(g)] + [AbandonOne(g, i)];
    } else {
      steps := [Submit(item), AbandonOne(g, i)];
      RunFromSnoc(cfg, s, [Submit(item)], AbandonOne(g, i));
      assert steps == [Submit(item)] + [AbandonOne(g, i)];
    }
  }

  lemma NoSteps(cfg: Config, s: State)
    requires ValidConfig(cfg) && Inv(cfg, s)
    ensures RunFrom(cfg, s, []) == s
  {
  }

  /**
   Exactly when a running, uncancelled generation keeps the items of a channel for as long as
   nobody stops it: when no stop of an earlier generation is unfinished. The dispatcher can
   have been started again before an earlier stop got to cancel its context or to empty the
   queues, and that stop then empties the queues of the new generation.
   */
  lemma LateAbandonExactly(cfg: Config, s: State, c: Channel)
    requires ValidConfig(cfg) && Inv(cfg, s) && RunsUncancelled(s)
    ensures (forall steps: seq<Step> | Undisturbed(steps) ::
               RunFrom(cfg, s, steps).lanes[cfg.hash(c)].dropped == s.lanes[cfg.hash(c)].dropped)
            <==> NoUnfinishedStop(s)
    ensures NoUnfinishedStop(s) ==> forall steps: seq<Step>, i: nat | Undisturbed(steps) && i <= cfg.shards ::
               RunFrom(cfg, s, steps).lanes[i].dropped == s.lanes[i].dropped
  {
    hide RunFrom, FlowInv, ControlInv, RunsUncancelled, NoUnfinishedStop, Undisturbed;
    if NoUnfinishedStop(s) {
      forall steps: seq<Step>, i: nat | Undisturbed(steps) && i <= cfg.shards
        ensures RunFrom(cfg, s, steps).lanes[i].dropped == s.lanes[i].dropped
      {
        QuietRunDropsNothing(cfg, s, steps, i);
      }
    } else {
      var steps := UnfinishedStopDrops(cfg, s, Item(c, 0));
    }
  }

  lemma RunSnoc(cfg: Config, steps: seq<Step>, step: Step)
    requires ValidConfig(cfg)
    ensures Run(cfg, steps + [step]) == Do(cfg, Run(cfg, steps), step)
  {
    assert (steps + [step])[..|steps|] == steps;
  }

  lemma FirstStart(cfg: Config)
    requires ValidConfig(cfg) && cfg.shards == 1 && !cfg.workersDisabled && !cfg.conversation
    ensures Run(cfg, [Start]) == Init(cfg).(control := Started(Init(cfg).control), workers := map[Worker(0, 0) := Idle])
  {
    var s := Run(cfg, []);
    assert s == Init(cfg);
    hide Run, FlowInv, ControlInv;
    assert NewWorkers(cfg, 0) == map[Worker(0, 0) := Idle];
    assert [] + [Start] == [Start];
    RunSnoc(cfg, [], Start);
  }

  /** A stop that has cancelled its generation and not yet emptied the queues. */
  lemma CancelledStop(cfg: Config) returns (steps: seq<Step>)
    requires ValidConfig(cfg) && cfg.shards == 1 && !cfg.workersDisabled && !cfg.conversation
    ensures Run(cfg, steps) == Init(cfg).(control := Control(1, None, Some(0), false, true),
      workers := map[Worker(0, 0) := Idle], abandoning := {0}, cancelled := {0}, stopped := {0})
  {
    hide Run, FlowInv, ControlInv, NewWorkers;
    FirstStart(cfg);
    steps := [Start];
    RunSnoc(cfg, steps, StopBegin);
    steps := steps + [StopBegin];
    RunSnoc(cfg, steps, Cancel(0));
    steps := steps + [Cancel(0)];
    assert {0} - {0} == {} && {} + {0} == {0};
  }

  /** Another thread may finish the stop at that point. */
  lemma UnfinishedStop(cfg: Config) returns (steps: seq<Step>)
    requires ValidConfig(cfg) && cfg.shards == 1 && !cfg.workersDisabled && !cfg.conversation
    ensures Run(cfg, steps) == Init(cfg).(control := Control(1, None, None, false, false),
      abandoning := {0}, cancelled := {0}, stopped := {0}, waited := {0}, closed := {0})
  {
    hide Run, FlowInv, ControlInv;
    steps := CancelledStop(cfg);
    var w := Worker(0, 0);
    RunSnoc(cfg, steps, Exit(w));
    steps := steps + [Exit(w)];
    assert map[w := Idle] - {w} == map[];
    RunSnoc(cfg, steps, WaitReturns(0));
    steps := steps + [WaitReturns(0)];
    RunSnoc(cfg, steps, Close(0));
    steps := steps + [Close(0)];
    RunSnoc(cfg, steps, Finish(0));
    steps := steps + [Finish(0)];
  }

  /** Such a run exists: stop, let another thread finish the stop, start again, submit, and only then abandon. */
  lemma LateAbandonHappens(cfg: Config, item: Item)
    requires ValidConfig(cfg) && cfg.shards == 1 && !cfg.workersDisabled && !cfg.conversation
    ensures exists steps: seq<Step> :: var s := Run(cfg, steps); var lane := s.lanes[cfg.hash(item.channel)];
      s.control.running && s.control.started - 1 !in s.cancelled && lane == Lane([item], [], [], 1)
  {
    hide Run, FlowInv, ControlInv;
    var i := cfg.hash(item.channel);
    var steps := UnfinishedStop(cfg);
    RunSnoc(cfg, steps, Start);
    steps := steps + [Start];
    RunSnoc(cfg, steps, Submit(item));
    steps := steps + [Submit(item)];
    assert Run(cfg, steps).lanes[i] == Lane([item], [], [item], 0);
    RunSnoc(cfg, steps, AbandonOne(0, i));
    steps := steps + [AbandonOne(0, i)];
    assert Run(cfg, steps).lanes[i] == Lane([item], [], [], 1);
  }

  /**
   And another one: the generation ends with its parent context, and the stop is overtaken
   before it gets to cancel it. No stop is emptying the queues when the item is submitted.
   */
  lemma LateCancelHappens(cfg: Config, item: Item)
    requires ValidConfig(cfg) && cfg.shards == 1 && !cfg.workersDisabled && !cfg.conversation
    ensures exists steps: seq<Step> :: var s := Run(cfg, steps);
      && RunsUncancelled(s) && s.abandoning == {} && !NoUnfinishedStop(s)
      && s.lanes[cfg.hash(item.channel)] == Lane([item], [], [item], 0)
  {
    hide Run, FlowInv, ControlInv;
    var steps := UncancelledStop(cfg);
    RunSnoc(cfg, steps, Start);
    steps := steps + [Start];
    RunSnoc(cfg, steps, Submit(item));
    steps := steps + [Submit(item)];
    assert Run(cfg, steps).lanes[cfg.hash(item.channel)] == Lane([item], [], [item], 0);
  }

  /** The parent context ends the workers, and another thread finishes the stop that has only begun. */
  lemma UncancelledStop(cfg: Config) returns (steps: seq<Step>)
    requires ValidConfig(cfg) && cfg.shards == 1 && !cfg.workersDisabled && !cfg.conversation
    ensures Run(cfg, steps) == Init(cfg).(control := Control(1, None, None, false, false),
      toCancel := {0}, cancelled := {0}, stopped := {0}, waited := {0}, closed := {0})
  {
    hide Run, FlowInv, ControlInv, NewWorkers;
    FirstStart(cfg);
    var w := Worker(0, 0);
    steps := [Start];
    RunSnoc(cfg, steps, ParentCancel(0));
    steps := steps + [ParentCancel(0)];
    RunSnoc(cfg, steps, Exit(w));
    steps := steps + [Exit(w)];
    assert map[w := Idle] - {w} == map[];
    RunSnoc(cfg, steps, StopBegin);
    steps := steps + [StopBegin];
    RunSnoc(cfg, steps, WaitReturns(0));
    steps := steps + [WaitReturns(0)];
    RunSnoc(cfg, steps, Close(0));
    steps := steps + [Close(0)];
    RunSnoc(cfg, steps, Finish(0));
    steps := steps + [Finish(0)];
  }

  // ---------------------------------------------------------------- who drops what

  /** A generation drops an item when a worker of its own lets go of it, or when its stop empties the queue. */
  predicate DropsFor(step: Step, g: nat, i: nat) {
    step == Exit(Worker(g, i)) || step == AbandonOne(g, i)
  }

  /** The generation has been cancelled in this run: by its stop, or by the end of its parent context. */
  ghost predicate CancelledIn(steps: seq<Step>, g: nat) {
    Cancel(g) in steps || ParentCancel(g) in steps
  }

  lemma CancelCause(cfg: Config, s: State, step: Step, g: nat)
    requires ValidConfig(cfg) && Shape(cfg, s)
    ensures g in Do(cfg, s, step).cancelled ==> g in s.cancelled || step == Cancel(g) || step == ParentCancel(g)
    ensures g in Do(cfg, s, step).abandoning ==> g in s.abandoning || step == Cancel(g)
  {
  }

  lemma CancelledMore(steps: seq<Step>, last: Step, g: nat)
    ensures CancelledIn(steps + [last], g) <==> CancelledIn(steps, g) || last in {Cancel(g), ParentCancel(g)}
  {
  }

  /** Only its own stop or parent context cancels a generation, and its stop empties queues only after cancelling. */
  lemma {:induction false} CancelsHaveCauses(cfg: Config, steps: seq<Step>, g: nat)
    requires ValidConfig(cfg)
    ensures g in Run(cfg, steps).cancelled ==> CancelledIn(steps, g)
    ensures g in Run(cfg, steps).abandoning ==> Cancel(g) in steps
    decreases |steps|
  {
    if steps != [] {
      hide FlowInv, ControlInv, Do, Run, CancelledIn;
      var init, last := steps[..|steps| - 1], steps[|steps| - 1];
      CancelsHaveCauses(cfg, init, g);
      assert steps == init + [last];
      RunSnoc(cfg, init, last);
      CancelCause(cfg, Run(cfg, init), last, g);
      CancelledMore(init, last, g);
    } else {
      assert Run(cfg, []) == Init(cfg);
    }
  }

  lemma StepDrops(cfg: Config, s: State, step: Step, i: nat)
    requires ValidConfig(cfg) && Shape(cfg, s) && i <= cfg.shards
    ensures Do(cfg, s, step).lanes[i].dropped > s.lanes[i].dropped ==>
      exists g: nat :: DropsFor(step, g, i) && if step.AbandonOne? then g in s.abandoning else g in s.cancelled
  {
    if Do(cfg, s, step).lanes[i].dropped > s.lanes[i].dropped {
      var g := if step.Exit? then step.w.gen else step.gen;
      assert DropsFor(step, g, i) by {
        assert step.Exit? ==> step.w == Worker(g, i);
      }
    }
  }

  /**
   Whatever step of a run drops an item, it is a worker or the stop of some generation, and
   that very generation was cancelled before: a worker drops after either kind of cancel, a
   stop only after its own.
   */
  lemma DropsOnlyAfterCancel(cfg: Config, steps: seq<Step>, k: nat, i: nat)
    requires ValidConfig(cfg) && k < |steps| && i <= cfg.shards
    requires Run(cfg, steps[..k + 1]).lanes[i].dropped > Run(cfg, steps[..k]).lanes[i].dropped
    ensures exists g: nat ::
      DropsFor(steps[k], g, i) && if steps[k].AbandonOne? then Cancel(g) in steps[..k] else CancelledIn(steps[..k], g)
  {
    hide FlowInv, ControlInv, Do;
    assert steps[..k + 1] == steps[..k] + [steps[k]];
    RunSnoc(cfg, steps[..k], steps[k]);
    StepDrops(cfg, Run(cfg, steps[..k]), steps[k], i);
    var s := Run(cfg, steps[..k]);
    var g: nat :| DropsFor(steps[k], g, i) && if steps[k].AbandonOne? then g in s.abandoning else g in s.cancelled;
    CancelsHaveCauses(cfg, steps[..k], g);
  }

  // ---------------------------------------------------------------- the mutex-guarded object

  function Emptied(lane: Lane): Lane {
    lane.(queue := [], dropped := lane.dropped + |lane.queue|)
  }

  /**
   The dispatcher's fields. Each method is one critical section of the state machine: the
   ghost state takes the same step, so that every theorem about runs is about this object.
   */
  class CommittedDispatcher {
    const cfg: Config
    var control: Control
    var lanes: seq<Lane>
    ghost var s: State

    constructor (cfg: Config)
      requires ValidConfig(cfg)
      ensures this.cfg == cfg && Valid() && s == Init(cfg)
    {
      this.cfg, control, lanes, s := cfg, Init(cfg).control, Init(cfg).lanes, Init(cfg);
      new;
      InitIsValid(cfg);
    }

    ghost predicate Valid()
      reads this
    {
      ValidConfig(cfg) && Inv(cfg, s) && control == s.control && lanes == s.lanes
    }

    /** What other goroutines do in between: any steps that leave the mutex-guarded fields and the queues alone. */
    ghost method TakeStep(step: Step)
      requires Valid() && Do(cfg, s, step).control == control && Do(cfg, s, step).lanes == lanes
      modifies this`s
      ensures Valid() && s == Do(cfg, old(s), step)
    {
      StepKeeps(s, step);
      hide Inv;
      s := Do(cfg, s, step);
    }

    lemma StepKeeps(before: State, step: Step)
      requires ValidConfig(cfg) && Inv(cfg, before)
      ensures Inv(cfg, Do(cfg, before, step))
    {
      StepKeepsControl(cfg, before, step);
      StepKeepsFlow(cfg, before, step);
      hide FlowInv, ControlInv, Do;
    }

    /** Starts a generation unless one is running or stopping; no worker of an earlier one is then alive. */
    method Start() returns (gen: Option<nat>)
      requires Valid()
      modifies this
      ensures Valid() && s == Do(cfg, old(s), Step.Start)
      ensures gen == if MayStart(old(control)) then Some(old(control).started) else None
      ensures gen.Some? <==> old(control).cancel.None? && !old(control).running && !old(control).stopping
      ensures gen.Some? ==> control == Control(gen.value + 1, gen, gen, true, false)
      ensures gen.Some? ==> Admits(control) && old(s).workers == map[] && gen.value !in s.stopped
      // One worker for each shard unless these are disabled, one for the fallback if there is one; all of them wait.
      ensures gen.Some? ==> forall w: Worker ::
        && (w in s.workers <==>
              && w.gen == gen.value
              && if w.queue < cfg.shards then !cfg.workersDisabled else w.queue == cfg.shards && cfg.conversation)
        && (w in s.workers ==> s.workers[w] == Idle)
      ensures gen.None? ==> s == old(s)
    {
      StepKeeps(s, Step.Start);
      hide FlowInv;
      if control.cancel.Some? {
        return None;
      }
      if control.running || control.stopping {
        return None;
      }
      gen := Some(control.started);
      control := Control(control.started + 1, gen, gen, true, false);
      s := Do(cfg, s, Step.Start);
    }

    /** Accepts an item while running; a full shard never makes the submission fail. */
    method SubmitCommitted(item: Item) returns (ok: bool)
      requires Valid()
      modifies this
      ensures Valid() && s == Do(cfg, old(s), Submit(item))
      ensures ok <==> s.submitted == old(s).submitted + [item]
      ensures ok <==> old(control).running && !old(control).stopping
      ensures !ok ==> s == old(s)
      // A shard with room takes the item at its end; a full one leaves it to the fallback, if that has room.
      ensures ok ==>
        var i, f := cfg.hash(item.channel), cfg.shards;
        var inShard := |old(lanes)[i].queue| < cfg.depth;
        var inFallback := !inShard && cfg.conversation && |old(lanes)[f].queue| < cfg.depth;
        && (inShard ==>
              && lanes[i].queue == old(lanes)[i].queue + [item]
              && lanes[i].accepted == old(lanes)[i].accepted + [item])
        && (inFallback ==>
              && lanes[f].queue == old(lanes)[f].queue + [item]
              && lanes[f].accepted == old(lanes)[f].accepted + [item])
        && (forall j: nat | j < |lanes| && !(inShard && j == i) && !(inFallback && j == f) :: lanes[j] == old(lanes)[j])
      ensures forall j: nat | j < |lanes| ::
        lanes[j].routed == old(lanes)[j].routed && lanes[j].dropped == old(lanes)[j].dropped
    {
      StepKeeps(s, Submit(item));
      hide FlowInv, ControlInv;
      if !control.running || control.stopping {
        return false;
      }
      var i := cfg.hash(item.channel);
      if |lanes[i].queue| < cfg.depth {
        lanes := lanes[i := Enqueue(lanes[i], item)];
      } else if cfg.conversation && |lanes[cfg.shards].queue| < cfg.depth {
        lanes := lanes[cfg.shards := Enqueue(lanes[cfg.shards], item)];
      }
      s := Do(cfg, s, Submit(item));
      return true;
    }

    /**
     The locked part of a stop; says which generation to cancel, if any. It is the latest one,
     it is handed to one stopper only, and nothing more is admitted.
     */
    method StopBegin() returns (cancel: Option<nat>)
      requires Valid()
      modifies this
      ensures Valid() && s == Do(cfg, old(s), Step.StopBegin)
      ensures !control.running && control.cancel.None? && control.done == old(control).done
      ensures control.stopping == (old(control).stopping || old(control).running)
      ensures cancel.Some? <==> old(control).running
      ensures cancel.Some? ==>
        cancel.value == control.started - 1 && cancel.value !in old(s).stopped && cancel.value in s.toCancel
      ensures cancel.None? ==> s == old(s)
    {
      StepKeeps(s, Step.StopBegin);
      hide FlowInv;
      cancel := control.cancel;
      if cancel.None? && control.stopping && control.done.Some? {
        return;
      }
      control := control.(cancel := None, running := false);
      if cancel.Some? {
        control := control.(stopping := true);
      }
      s := Do(cfg, s, Step.StopBegin);
    }

    /** Empties every queue for the stop of one generation; nothing that was queued is routed. */
    method AbandonQueued(ghost gen: nat)
      requires Valid() && gen in s.abandoning
      modifies this`lanes, this`s
      ensures Valid() && s == old(s).(lanes := lanes) && |lanes| == |old(lanes)|
      ensures forall i: nat | i < |lanes| :: lanes[i] == Emptied(old(lanes)[i])
      ensures forall i: nat | i < |lanes| ::
        lanes[i].queue == [] && lanes[i].dropped == old(lanes)[i].dropped + |old(lanes)[i].queue|
        && lanes[i].accepted == old(lanes)[i].accepted && lanes[i].routed == old(lanes)[i].routed
    {
      hide Inv;
      InvShape(s);
      for i := 0 to |lanes|
        invariant Valid() && s == old(s).(lanes := lanes) && |lanes| == |old(lanes)|
        invariant forall j: nat | j < |lanes| :: lanes[j] == if j < i then Emptied(old(lanes)[j]) else old(lanes)[j]
      {
        while lanes[i].queue != []
          invariant Valid() && s == old(s).(lanes := lanes) && |lanes| == |old(lanes)|
          invariant forall j: nat | j < |lanes| && j != i ::
            lanes[j] == if j < i then Emptied(old(lanes)[j]) else old(lanes)[j]
          invariant Emptied(lanes[i]) == Emptied(old(lanes)[i])
          decreases |lanes[i].queue|
        {
          InvShape(s);
          StepKeeps(s, AbandonOne(gen, i));
          lanes := lanes[i := DropHead(lanes[i])];
          s := Do(cfg, s, AbandonOne(gen, i));
        }
      }
    }

    lemma InvShape(before: State)
      requires Inv(cfg, before)
      ensures Shape(cfg, before)
    {
      hide FlowInv, ControlInv;
    }

    /**
     Ends the stop of a generation whose done channel was closed. Of the latest generation it
     makes a new start possible; a stop that comes late leaves the control of a later one alone.
     */
    method FinishStop(gen: nat)
      requires Valid() && gen in s.stopped && gen in s.closed
      modifies this`control, this`s
      ensures Valid() && s == Do(cfg, old(s), Finish(gen))
      ensures gen == control.started - 1 ==> MayStart(control) && control.done.None?
      ensures gen != control.started - 1 ==> control == old(control)
      ensures gen == control.started - 1 ==> !control.running && !control.stopping && control.cancel.None?
      ensures control.started == old(control).started && control.running == old(control).running
    {
      StepKeeps(s, Finish(gen));
      hide FlowInv;
      if control.done == Some(gen) {
        control := control.(done := None, stopping := false);
      }
      s := Do(cfg, s, Finish(gen));
    }
  }

  // ---------------------------------------------------------------- the late stop on the object

  /** A dispatcher whose stop another thread has finished, before the stopper came to empty the queues. */
  method StoppedElsewhere(cfg: Config) returns (d: CommittedDispatcher)
    requires ValidConfig(cfg) && cfg.shards == 1 && !cfg.workersDisabled && !cfg.conversation
    ensures fresh(d) && d.Valid() && d.cfg == cfg
    ensures d.s == Init(cfg).(control := Control(1, None, None, false, false),
      abandoning := {0}, cancelled := {0}, stopped := {0}, waited := {0}, closed := {0})
  {
    hide Inv, NewWorkers;
    OneWorker(cfg);
    d := new CommittedDispatcher(cfg);
    var w := Worker(0, 0);
    var gen := d.Start();
    assert d.s == Init(cfg).(control := Control(1, Some(0), Some(0), true, false), workers := map[w := Idle]);
    var cancel := d.StopBegin();
    d.TakeStep(Cancel(0));
    assert d.s == Init(cfg).(control := Control(1, None, Some(0), false, true),
      workers := map[w := Idle], abandoning := {0}, cancelled := {0}, stopped := {0});
    d.TakeStep(Exit(w));
    assert map[w := Idle] - {w} == map[];
    d.TakeStep(WaitReturns(0));
    d.TakeStep(Close(0));
    d.FinishStop(0);
  }

  lemma OneWorker(cfg: Config)
    requires cfg.shards == 1 && !cfg.workersDisabled && !cfg.conversation
    ensures map[] + NewWorkers(cfg, 0) == map[Worker(0, 0) := Idle]
  {
  }

  lemma RestartIsClean(cfg: Config, s: State)
    requires ValidConfig(cfg) && Shape(cfg, s) && s == Init(cfg).(control := Control(1, None, None, false, false),
      abandoning := {0}, cancelled := {0}, stopped := {0}, waited := {0}, closed := {0})
    ensures var t := Do(cfg, s, Start);
      RunsUncancelled(t) && Admits(t.control) && t.lanes == Init(cfg).lanes && t.abandoning == {0}
  {
    hide NewWorkers;
  }

  lemma FirstItem(cfg: Config, s: State, item: Item)
    requires ValidConfig(cfg) && Shape(cfg, s) && Admits(s.control) && s.lanes == Init(cfg).lanes
    ensures var t, i := Do(cfg, s, Submit(item)), cfg.hash(item.channel);
      && t.control == s.control && t.cancelled == s.cancelled && t.abandoning == s.abandoning
      && |t.lanes| == cfg.shards + 1 && t.lanes[i] == Lane([item], [], [item], 0)
  {
  }

  lemma StaysUncancelled(s: State, t: State)
    requires RunsUncancelled(s) && t.control == s.control && t.cancelled == s.cancelled
    ensures RunsUncancelled(t) && Admits(t.control) == Admits(s.control)
  {
  }

  lemma OneEmptied(item: Item)
    ensures Emptied(Lane([item], [], [item], 0)) == Lane([item], [], [], 1)
  {
  }

  /** The object drops an item of its second start, although nobody has stopped that one. */
  method LateAbandonOnObject(cfg: Config, item: Item) returns (d: CommittedDispatcher)
    requires ValidConfig(cfg) && cfg.shards == 1 && !cfg.workersDisabled && !cfg.conversation
    ensures d.Valid() && d.cfg == cfg && Admits(d.control) && RunsUncancelled(d.s)
    ensures |d.lanes| == 2 && d.lanes[cfg.hash(item.channel)] == Lane([item], [], [], 1)
  {
    d := StoppedElsewhere(cfg);
    ghost var stopped := d.s;
    RestartIsClean(cfg, stopped);
    hide Inv, Do, Init, Emptied, RunsUncancelled, Admits;
    var gen := d.Start();
    ghost var restarted := d.s;
    FirstItem(cfg, restarted, item);
    var ok := d.SubmitCommitted(item);
    d.AbandonQueued(0);
    StaysUncancelled(restarted, d.s);
    OneEmptied(item);
  }
}
