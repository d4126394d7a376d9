/**
 Planning one message-retention advance on the channel leader
 (internal/app/manager_message_retention.go).
 */
module RetentionDecision {
  import opened Options
  import opened Sequence64

  datatype Reason =
    | NoReason
    | CurrentBoundary
    | ReplayCursor
    | MinISRMatchOffset
    | HighWatermark
    | CheckpointHW

  datatype Gate = Gate(limit: Seq64, reason: Reason)

  /** The smallest of the request and every gate. */
  function Lowest(requested: Seq64, gates: seq<Gate>): (through: Seq64)
    decreases |gates|
  {
    if gates == [] then requested
    else Min(Lowest(requested, gates[..|gates| - 1]), gates[|gates| - 1].limit)
  }

  /** Gate i is the first gate that brings the boundary down to `through`. */
  ghost predicate FirstAt(gates: seq<Gate>, i: nat, through: Seq64) {
    i < |gates| && gates[i].limit == through && forall j | 0 <= j < i :: through < gates[j].limit
  }

  /** `Lowest` is a lower bound of the request and the gates, and it is attained. */
  lemma {:induction false} LowestIsGreatestLowerBound(requested: Seq64, gates: seq<Gate>)
    ensures Lowest(requested, gates) <= requested
    ensures forall i | 0 <= i < |gates| :: Lowest(requested, gates) <= gates[i].limit
    ensures Lowest(requested, gates) == requested || exists i: nat :: FirstAt(gates, i, Lowest(requested, gates))
    decreases |gates|
  {
    if gates != [] {
      var init := gates[..|gates| - 1];
      LowestIsGreatestLowerBound(requested, init);
      var low, before := Lowest(requested, gates), Lowest(requested, init);
      if before <= gates[|gates| - 1].limit {
        if before != requested {
          var i: nat :| FirstAt(init, i, before);
          assert FirstAt(gates, i, low);
        }
      } else {
        assert FirstAt(gates, |gates| - 1, low);
      }
    }
  }

  /** The gate loop: the boundary it may move to and, when it is stopped, by what. */
  method Decide(requested: Seq64, current: Seq64, gates: seq<Gate>) returns (through: Seq64, reason: Reason)
    requires forall i | 0 <= i < |gates| :: gates[i].reason !in {NoReason, CurrentBoundary}
    ensures through == Lowest(requested, gates)
    ensures reason == CurrentBoundary <==> through == requested <= current
    ensures reason == NoReason <==> current < through == requested
    ensures through != requested ==> exists i: nat :: FirstAt(gates, i, through) && gates[i].reason == reason
  {
    through, reason := requested, NoReason;
    for k := 0 to |gates|
      invariant through == Lowest(requested, gates[..k])
      invariant reason == NoReason <==> through == requested
      invariant reason != CurrentBoundary
      invariant forall j | 0 <= j < k :: through <= gates[j].limit
      invariant through <= requested
      invariant through != requested ==> exists i: nat ::
        FirstAt(gates, i, through) && i < k && gates[i].reason == reason
    {
      assert gates[..k + 1][..k] == gates[..k];
      if gates[k].limit < through {
        through, reason := gates[k].limit, gates[k].reason;
        assert FirstAt(gates, k, through);
      }
    }
    assert gates[..|gates|] == gates;
    if through <= current && reason == NoReason {
      reason := CurrentBoundary;
    }
  }

  datatype View = View(
    leader: nat,
    commitReady: bool,
    leaseUntil: Option<int>,
    epoch: nat,
    leaderEpoch: nat,
    hw: Seq64,
    checkpointHW: Seq64,
    minISRMatchOffset: Seq64,
    retentionThrough: Seq64)

  datatype Status = Noop | Blocked | WouldAdvance | Advanced

  datatype Error = StaleMeta | Failed

  datatype Request = Request(throughSeq: Seq64, dryRun: bool)

  datatype Response = Response(throughSeq: Seq64, minAvailable: Seq64, status: Status, reason: Reason)

  function Respond(through: Seq64, status: Status, reason: Reason): Response {
    Response(through, EffectiveMinAvailable(through, 0), status, reason)
  }

  /** What metadata compares before it accepts an advance. */
  datatype Fence = Fence(epoch: nat, leaderEpoch: nat, leader: nat, leaseUntil: Option<int>)

  function FenceOf(v: View): Fence {
    Fence(v.epoch, v.leaderEpoch, v.leader, v.leaseUntil)
  }

  /** The four gates in the order in which the leader reports them. */
  function GatesOf(cursor: Seq64, v: View): seq<Gate> {
    [ Gate(cursor, ReplayCursor),
      Gate(v.minISRMatchOffset, MinISRMatchOffset),
      Gate(v.hw, HighWatermark),
      Gate(v.checkpointHW, CheckpointHW) ]
  }

  /** What the ports answer during one call: None stands for an error of that port. */
  datatype Ports = Ports(
    first: Option<View>,
    firstClock: int,
    second: Option<View>,
    secondClock: int,
    cursorReadable: bool,
    metadataAccepts: bool,
    applySucceeds: bool)

  /** The leader's own view is fresh: it leads, it is ready, and its lease has not run out. */
  predicate Fresh(localNode: nat, v: View, now: int) {
    && v.leader == localNode
    && v.commitReady
    && (v.leaseUntil.Some? ==> now < v.leaseUntil.value)
  }

  /** The reason of the first gate that brings the boundary down to `through`. */
  ghost function BlockedBy(gates: seq<Gate>, through: Seq64): (reason: Reason)
    requires exists i: nat :: FirstAt(gates, i, through)
    ensures exists i: nat :: FirstAt(gates, i, through) && gates[i].reason == reason
  {
    var i: nat :| FirstAt(gates, i, through);
    gates[i].reason
  }

  /** The outcome when the ports answer and the leader stays fresh, as a function of the cursor. */
  ghost function Planned(req: Request, cursor: Option<Seq64>, view: View, latest: View): (r: Response) {
    if req.throughSeq <= view.retentionThrough then
      Respond(view.retentionThrough, Noop, NoReason)
    else if cursor.None? || cursor.value <= view.retentionThrough then
      Respond(view.retentionThrough, Blocked, ReplayCursor)
    else
      var gates := GatesOf(cursor.value, latest);
      var through := Lowest(req.throughSeq, gates);
      if latest.retentionThrough < through then
        Respond(through, if req.dryRun then WouldAdvance else Advanced, NoReason)
      else if through == req.throughSeq then
        Respond(latest.retentionThrough, Noop, NoReason)
      else
        LowestIsGreatestLowerBound(req.throughSeq, gates);
        Respond(latest.retentionThrough, Blocked, BlockedBy(gates, through))
  }

  /** The stores and the runtime that one advance reads and writes. */
  class RetentionOperator {
    const localNode: nat
    /** Replay cursor as the store reads it back. */
    var cursor: Option<Seq64>
    /** The cursor row has been synced since it was last written. */
    var cursorDurable: bool
    /** Advances that cluster metadata accepted, oldest first. */
    var metadata: seq<(Fence, Seq64)>
    /** Boundaries handed to the local runtime, oldest first. */
    var applied: seq<Seq64>

    constructor (localNode: nat, cursor: Option<Seq64>)
      ensures this.localNode == localNode && this.cursor == cursor && !cursorDurable
      ensures metadata == [] && applied == []
    {
      this.localNode, this.cursor, cursorDurable := localNode, cursor, false;
      metadata, applied := [], [];
    }

    /** Syncs the existing cursor when it is at least `minSeq`; None means that replay blocks the advance. */
    method ConfirmCursorDurable(minSeq: Seq64) returns (confirmed: Option<Seq64>)
      modifies `cursorDurable
      ensures confirmed == if cursor.Some? && minSeq <= cursor.value then cursor else None
      ensures confirmed.Some? ==> cursorDurable
      ensures confirmed.None? ==> cursorDurable == old(cursorDurable)
    {
      if cursor.None? || cursor.value < minSeq {
        return None;
      }
      cursorDurable := true;
      return cursor;
    }

    /**
     One advance on the leader. A dry run writes nothing. A real run writes metadata at most
     once, only above the latest boundary, only behind the latest fence and only after the
     cursor that gates it has been synced.
     */
    method AdvanceLocal(req: Request, ports: Ports) returns (r: Result<Response, Error>)
      modifies `cursorDurable, `metadata, `applied
      ensures req.dryRun ==> cursorDurable == old(cursorDurable) && metadata == old(metadata) && applied == old(applied)
      ensures metadata == old(metadata) || (exists v, t ::
        && v == ports.second && v.Some? && Fresh(localNode, v.value, ports.secondClock)
        && metadata == old(metadata)
             + [(Fence(v.value.epoch, v.value.leaderEpoch, v.value.leader, v.value.leaseUntil), t)]
        && v.value.retentionThrough < t <= req.throughSeq
        && cursor.Some? && t <= cursor.value && cursorDurable
        && t <= v.value.minISRMatchOffset && t <= v.value.hw && t <= v.value.checkpointHW)
      ensures applied == old(applied)
        || (exists f, t :: metadata == old(metadata) + [(f, t)] && applied == old(applied) + [t])
      // Only the ready leader answers, and only before its lease ends; a stale view changes nothing.
      ensures r.Ok? ==>
        && ports.first.Some? && ports.first.value.leader == localNode && ports.first.value.commitReady
        && (ports.first.value.leaseUntil.Some? ==> ports.firstClock < ports.first.value.leaseUntil.value)
      ensures metadata != old(metadata) ==>
        && ports.second.Some? && ports.second.value.leader == localNode && ports.second.value.commitReady
        && (ports.second.value.leaseUntil.Some? ==> ports.secondClock < ports.second.value.leaseUntil.value)
      ensures ports.first.Some? ==>
        var v := ports.first.value; var ended := v.leaseUntil.Some? && v.leaseUntil.value <= ports.firstClock;
        v.leader != localNode || !v.commitReady || ended ==>
          r == Err(StaleMeta) && cursorDurable == old(cursorDurable) && metadata == old(metadata)
          && applied == old(applied)
      ensures r == Err(StaleMeta) ==>
        || (ports.first.Some? && !Fresh(localNode, ports.first.value, ports.firstClock))
        || (!req.dryRun && ports.second.Some? && !Fresh(localNode, ports.second.value, ports.secondClock))
      ensures r.Ok? && req.dryRun ==> r.value == Planned(req, cursor, ports.first.value, ports.first.value)
      ensures r.Ok? && !req.dryRun && ports.second.Some? ==>
        r.value == Planned(req, cursor, ports.first.value, ports.second.value)
      ensures r.Ok? && r.value.status == Advanced ==>
        && ports.second.Some?
        && metadata == old(metadata) + [(FenceOf(ports.second.value), r.value.throughSeq)]
        && applied == old(applied) + [r.value.throughSeq]
      ensures r.Ok? && r.value.status != Advanced ==> metadata == old(metadata) && applied == old(applied)
      ensures r.Ok? <==>
        && ports.first.Some? && Fresh(localNode, ports.first.value, ports.firstClock)
        && (req.throughSeq <= ports.first.value.retentionThrough
            || (ports.cursorReadable
                && (cursor.None? || cursor.value <= ports.first.value.retentionThrough || req.dryRun
                    || (ports.second.Some? && Fresh(localNode, ports.second.value, ports.secondClock)
                        && (ports.second.value.retentionThrough
                              < Lowest(req.throughSeq, GatesOf(cursor.value, ports.second.value))
                            ==> ports.metadataAccepts && ports.applySucceeds)))))
    {
      hide Lowest;
      if ports.first.None? {
        return Err(Failed);
      }
      var view := ports.first.value;
      if !Fresh(localNode, view, ports.firstClock) {
        return Err(StaleMeta);
      }
      if req.throughSeq <= view.retentionThrough {
        return Ok(Respond(view.retentionThrough, Noop, NoReason));
      }
      if !ports.cursorReadable {
        return Err(Failed);
      }
      var confirmed := cursor;
      if !req.dryRun {
        confirmed := ConfirmCursorDurable(Next(view.retentionThrough));
      }
      if confirmed.None? || confirmed.value <= view.retentionThrough {
        return Ok(Respond(view.retentionThrough, Blocked, ReplayCursor));
      }
      var latest := view;
      if !req.dryRun {
        if ports.second.None? {
          return Err(Failed);
        }
        latest := ports.second.value;
        if !Fresh(localNode, latest, ports.secondClock) {
          return Err(StaleMeta);
        }
      }
      var gates := GatesOf(confirmed.value, latest);
      var through, reason := Decide(req.throughSeq, latest.retentionThrough, gates);
      LowestIsGreatestLowerBound(req.throughSeq, gates);
      if through <= latest.retentionThrough {
        if reason != CurrentBoundary {
          assert reason == BlockedBy(gates, through);
          return Ok(Respond(latest.retentionThrough, Blocked, reason));
        }
        return Ok(Respond(latest.retentionThrough, Noop, NoReason));
      }
      if req.dryRun {
        return Ok(Respond(through, WouldAdvance, NoReason));
      }
      assert forall i | 0 <= i < 4 :: through <= gates[i].limit;
      assert gates[0].limit == confirmed.value && gates[1].limit == latest.minISRMatchOffset
          && gates[2].limit == latest.hw && gates[3].limit == latest.checkpointHW;
      if !ports.metadataAccepts {
        return Err(Failed);
      }
      metadata := metadata + [(FenceOf(latest), through)];
      if !ports.applySucceeds {
        return Err(Failed);
      }
      applied := applied + [through];
      return Ok(Respond(through, Advanced, NoReason));
    }
  }

  /** On unchanged state a dry run announces exactly what the real run does. */
  lemma DryRunPredictsRealRun(throughSeq: Seq64, cursor: Option<Seq64>, view: View)
    ensures
      var dry := Planned(Request(throughSeq, true), cursor, view, view);
      var actual := Planned(Request(throughSeq, false), cursor, view, view);
      && dry.throughSeq == actual.throughSeq && dry.minAvailable == actual.minAvailable && dry.reason == actual.reason
      && (dry.status == WouldAdvance <==> actual.status == Advanced)
      && (dry.status != WouldAdvance ==> dry.status == actual.status)
  {
    if view.retentionThrough < throughSeq && cursor.Some? && view.retentionThrough < cursor.value {
      var gates := GatesOf(cursor.value, view);
      LowestIsGreatestLowerBound(throughSeq, gates);
    }
  }

  /**
   A blocked answer names the first of the replay cursor, the in-sync offset, the high watermark
   and its checkpoint that holds the boundary back; an answer's first readable sequence is the
   one after its boundary.
   */
  lemma BlockedByFirstGate(req: Request, cursor: Seq64, view: View, latest: View)
    requires view.retentionThrough < req.throughSeq && view.retentionThrough < cursor
    ensures var r := Planned(req, Some(cursor), view, latest); var isr := latest.minISRMatchOffset;
      && r.minAvailable == (if r.throughSeq == MAX_SEQ then MAX_SEQ else r.throughSeq + 1)
      && (r.status in {Blocked, Noop} ==> r.throughSeq == latest.retentionThrough)
      && (r.reason == ReplayCursor ==>
            cursor < req.throughSeq && cursor <= isr && cursor <= latest.hw && cursor <= latest.checkpointHW)
      && (r.reason == MinISRMatchOffset ==>
            isr < req.throughSeq && isr < cursor && isr <= latest.hw && isr <= latest.checkpointHW)
      && (r.reason == HighWatermark ==>
            latest.hw < req.throughSeq && latest.hw < cursor && latest.hw < isr && latest.hw <= latest.checkpointHW)
      && (r.reason == CheckpointHW ==>
            latest.checkpointHW < req.throughSeq && latest.checkpointHW < cursor && latest.checkpointHW < isr
            && latest.checkpointHW < latest.hw)
  {
    var gates := GatesOf(cursor, latest);
    LowestIsGreatestLowerBound(req.throughSeq, gates);
    assert gates[0].limit == cursor && gates[1].limit == latest.minISRMatchOffset && gates[2].limit == latest.hw
        && gates[3].limit == latest.checkpointHW;
  }

  /** The answers that need no gate: nothing to do, or replay has not come far enough. */
  lemma AnswersBeforeTheGates(req: Request, cursor: Option<Seq64>, view: View, latest: View)
    requires req.throughSeq <= view.retentionThrough || cursor.None? || cursor.value <= view.retentionThrough
    ensures var r := Planned(req, cursor, view, latest);
      && r.throughSeq == view.retentionThrough
      && r.minAvailable == (if r.throughSeq == MAX_SEQ then MAX_SEQ else r.throughSeq + 1)
      && (if req.throughSeq <= view.retentionThrough then r.status == Noop && r.reason == NoReason
          else r.status == Blocked && r.reason == ReplayCursor)
  {
  }

  /**
   The status cases are total and exclusive, and the boundary never moves back: it advances
   exactly to the least of the request and the four gates, or it stays where it was.
   */
  lemma StatusCases(req: Request, cursor: Option<Seq64>, view: View, latest: View)
    requires view.retentionThrough <= latest.retentionThrough
    ensures
      var r := Planned(req, cursor, view, latest);
      var low := if cursor.Some? then Lowest(req.throughSeq, GatesOf(cursor.value, latest)) else 0;
      && r.throughSeq >= view.retentionThrough
      && (r.status in {Advanced, WouldAdvance} <==>
            view.retentionThrough < req.throughSeq && cursor.Some? && view.retentionThrough < cursor.value
            && latest.retentionThrough < low)
      && (r.status in {Advanced, WouldAdvance} ==> r.throughSeq == low && r.reason == NoReason)
      && (r.status == Advanced ==> !req.dryRun) && (r.status == WouldAdvance ==> req.dryRun)
      && (r.status == Blocked <==> r.reason != NoReason)
      && (r.status == Noop ==> req.throughSeq <= latest.retentionThrough)
      && (r.status == Blocked ==> r.reason in {ReplayCursor, MinISRMatchOffset, HighWatermark, CheckpointHW})
      && (r.status == Blocked && cursor.Some? && view.retentionThrough < cursor.value ==>
            low < req.throughSeq
            && exists i: nat ::
              FirstAt(GatesOf(cursor.value, latest), i, low) && GatesOf(cursor.value, latest)[i].reason == r.reason)
  {
    if cursor.Some? {
      LowestIsGreatestLowerBound(req.throughSeq, GatesOf(cursor.value, latest));
    }
  }
}
