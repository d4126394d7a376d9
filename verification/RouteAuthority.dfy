/**
 The acceptance order of conversation route authorities and the drains it starts
 (internalv2/app/conversation_route_lifecycle.go:127-191, 235-258).
 */
module RouteAuthority {
  import opened Options
  import opened Sequences

  datatype Target = Target(hashSlot: nat, slotId: nat, leader: nat, term: nat, configEpoch: nat, revision: nat,
    authorityEpoch: nat)

  /** Revision first, then configuration epoch, leader term and authority epoch. */
  predicate Newer(next: Target, current: Target) {
    if next.revision != current.revision then next.revision > current.revision
    else if next.configEpoch != current.configEpoch then next.configEpoch > current.configEpoch
    else if next.term != current.term then next.term > current.term
    else next.authorityEpoch > current.authorityEpoch
  }

  predicate SameKey(a: Target, b: Target) {
    a.revision == b.revision && a.configEpoch == b.configEpoch && a.term == b.term
      && a.authorityEpoch == b.authorityEpoch
  }

  /** Of two targets exactly one is newer, or their keys are the same; being newer is transitive. */
  lemma NewerIsAnOrder(a: Target, b: Target, c: Target)
    ensures Newer(a, b) || Newer(b, a) || SameKey(a, b)
    ensures !(Newer(a, b) && Newer(b, a)) && !(Newer(a, b) && SameKey(a, b))
    ensures Newer(a, b) && !Newer(c, b) ==> Newer(a, c)
    ensures Newer(a, b) && Newer(b, c) ==> Newer(a, c)
  {
  }

  // ---------------------------------------------------------------- accepting targets

  /** The targets of one slot that were accepted while a list of targets arrived, oldest first. */
  function Chain(targets: seq<Target>, slot: nat): seq<Target>
    decreases |targets|
  {
    if targets == [] then []
    else
      var chain, t := Chain(targets[..|targets| - 1], slot), targets[|targets| - 1];
      if t.hashSlot == slot && (chain == [] || Newer(t, chain[|chain| - 1])) then chain + [t] else chain
  }

  /** A slot's latest target is the last one of its chain. */
  ghost predicate HoldsLatest(latest: map<nat, Target>, targets: seq<Target>) {
    forall slot: nat ::
      && (slot in latest <==> Chain(targets, slot) != [])
      && (slot in latest ==> latest[slot] == Chain(targets, slot)[|Chain(targets, slot)| - 1])
  }

  lemma {:induction false} ChainMembers(targets: seq<Target>, slot: nat)
    ensures forall t :: t in Chain(targets, slot) ==> t in targets && t.hashSlot == slot
    decreases |targets|
  {
    if targets != [] {
      ChainMembers(targets[..|targets| - 1], slot);
      assert targets == targets[..|targets| - 1] + [targets[|targets| - 1]];
    }
  }

  /** The latest target never moves back: every accepted target is strictly newer than all accepted before it. */
  lemma {:induction false} ChainAscends(targets: seq<Target>, slot: nat)
    ensures forall i, j | 0 <= i < j < |Chain(targets, slot)| :: Newer(Chain(targets, slot)[j], Chain(targets, slot)[i])
    decreases |targets|
  {
    if targets != [] {
      var init := targets[..|targets| - 1];
      ChainAscends(init, slot);
      var chain, t := Chain(init, slot), targets[|targets| - 1];
      if t.hashSlot == slot && chain != [] && Newer(t, chain[|chain| - 1]) {
        forall i | 0 <= i < |chain| ensures Newer(t, chain[i]) {
          NewerIsAnOrder(t, chain[|chain| - 1], chain[i]);
        }
      }
    }
  }

  ghost predicate IsMaximal(t: Target, targets: seq<Target>) {
    t in targets && forall u :: u in targets && u.hashSlot == t.hashSlot ==> !Newer(u, t)
  }

  /** The latest target of a slot is a maximum, in the lexicographic order, of all its targets seen. */
  lemma {:induction false} LatestIsMaximal(targets: seq<Target>, slot: nat)
    ensures Chain(targets, slot) != [] <==> exists t :: t in targets && t.hashSlot == slot
    ensures Chain(targets, slot) != [] ==>
      var latest := Chain(targets, slot)[|Chain(targets, slot)| - 1];
        latest.hashSlot == slot && IsMaximal(latest, targets)
    decreases |targets|
  {
    if targets != [] {
      var init, t := targets[..|targets| - 1], targets[|targets| - 1];
      LatestIsMaximal(init, slot);
      assert targets == init + [t];
      var before, after := Chain(init, slot), Chain(targets, slot);
      if after != [] && before != [] {
        var old', new' := before[|before| - 1], after[|after| - 1];
        forall u | u in targets && u.hashSlot == slot ensures !Newer(u, new') {
          if u in init {
            NewerIsAnOrder(new', old', u);
            NewerIsAnOrder(u, old', new');
          }
        }
      }
    }
  }

  /**
   Field by field: the latest target of a slot has the greatest revision of all its targets seen;
   among those of that revision the greatest configuration epoch; among those the greatest
   leader term; and among those the greatest authority epoch.
   */
  lemma LatestFieldByField(targets: seq<Target>, slot: nat, t: Target)
    requires t in targets && t.hashSlot == slot
    ensures Chain(targets, slot) != []
    ensures var latest := Chain(targets, slot)[|Chain(targets, slot)| - 1];
      && latest in targets && latest.hashSlot == slot
      && t.revision <= latest.revision
      && (t.revision == latest.revision ==> t.configEpoch <= latest.configEpoch)
      && (t.revision == latest.revision && t.configEpoch == latest.configEpoch ==> t.term <= latest.term)
      && (t.revision == latest.revision && t.configEpoch == latest.configEpoch && t.term == latest.term ==>
            t.authorityEpoch <= latest.authorityEpoch)
  {
    LatestIsMaximal(targets, slot);
    hide Chain;
  }

  /** The newest targets of each slot are one and the same target. */
  ghost predicate UniqueMaxima(targets: seq<Target>) {
    forall t, u :: IsMaximal(t, targets) && IsMaximal(u, targets) && t.hashSlot == u.hashSlot ==> t == u
  }

  ghost predicate SameTargets(a: seq<Target>, b: seq<Target>) {
    forall t :: t in a <==> t in b
  }

  function LatestOf(targets: seq<Target>, slot: nat): Option<Target> {
    var chain := Chain(targets, slot);
    if chain == [] then None else Some(chain[|chain| - 1])
  }

  /** The latest targets do not depend on how the same targets arrive: order, repetition, interleaving. */
  ghost predicate OrderIndependent(targets: seq<Target>) {
    forall other: seq<Target>, slot: nat ::
      SameTargets(targets, other) ==> LatestOf(other, slot) == LatestOf(targets, slot)
  }

  lemma MaximaCarryOver(a: seq<Target>, b: seq<Target>, slot: nat)
    requires SameTargets(a, b) && UniqueMaxima(a)
    ensures LatestOf(b, slot) == LatestOf(a, slot)
  {
    LatestIsMaximal(a, slot);
    LatestIsMaximal(b, slot);
    hide Newer, Chain;
    if LatestOf(a, slot).Some? {
      var t := LatestOf(a, slot).value;
      assert t in b;
      var u := LatestOf(b, slot).value;
      assert IsMaximal(u, a);
    }
  }

  /** A maximal target that arrives first is still the latest in the end. */
  lemma {:induction false} FirstMaximalStays(t: Target, targets: seq<Target>)
    requires forall u :: u in targets && u.hashSlot == t.hashSlot ==> !Newer(u, t)
    ensures Chain([t] + targets, t.hashSlot) == [t]
    decreases |targets|
  {
    var all := [t] + targets;
    if targets == [] {
      assert all == [t] && all[..0] == [];
    } else {
      assert all[..|all| - 1] == [t] + targets[..|targets| - 1];
      FirstMaximalStays(t, targets[..|targets| - 1]);
      assert targets[|targets| - 1] in targets;
    }
  }

  /**
   The latest targets are independent of arrival order, duplication and interleaving if and only
   if no slot has two different newest targets; equal keys meaning equal targets is enough.
   */
  lemma OrderIndependentExactly(targets: seq<Target>)
    ensures OrderIndependent(targets) <==> UniqueMaxima(targets)
  {
    if UniqueMaxima(targets) {
      forall other: seq<Target>, slot: nat | SameTargets(targets, other) ensures LatestOf(other, slot)
        == LatestOf(targets, slot) {
        MaximaCarryOver(targets, other, slot);
      }
    }
    if OrderIndependent(targets) {
      forall t, u | IsMaximal(t, targets) && IsMaximal(u, targets) && t.hashSlot == u.hashSlot ensures t == u {
        FirstMaximalStays(t, targets);
        FirstMaximalStays(u, targets);
        assert SameTargets(targets, [t] + targets) && SameTargets(targets, [u] + targets);
        assert LatestOf([t] + targets, t.hashSlot) == LatestOf(targets, t.hashSlot)
          == LatestOf([u] + targets, t.hashSlot);
      }
    }
  }

  lemma EqualKeysSuffice(targets: seq<Target>)
    requires forall t, u :: t in targets && u in targets && t.hashSlot == u.hashSlot && SameKey(t, u) ==> t == u
    ensures UniqueMaxima(targets)
  {
    forall t, u | IsMaximal(t, targets) && IsMaximal(u, targets) && t.hashSlot == u.hashSlot ensures t == u {
      NewerIsAnOrder(t, u, t);
    }
  }

  /** c takes its elements from the watch and from the reconcile stream, each in order. */
  ghost predicate Interleaving(a: seq<Target>, b: seq<Target>, c: seq<Target>)
    decreases |c|
  {
    if c == [] then a == [] && b == []
    else
      (a != [] && a[0] == c[0] && Interleaving(a[1..], b, c[1..]))
        || (b != [] && b[0] == c[0] && Interleaving(a, b[1..], c[1..]))
  }

  lemma {:induction false} InterleavingMembers(a: seq<Target>, b: seq<Target>, c: seq<Target>)
    requires Interleaving(a, b, c)
    ensures SameTargets(a + b, c)
    decreases |c|
  {
    if c != [] {
      assert c == [c[0]] + c[1..];
      if a != [] && a[0] == c[0] && Interleaving(a[1..], b, c[1..]) {
        InterleavingMembers(a[1..], b, c[1..]);
        assert a == [a[0]] + a[1..];
      } else {
        InterleavingMembers(a, b[1..], c[1..]);
        assert b == [b[0]] + b[1..];
      }
    }
  }

  /** However the watch and the reconcile stream interleave, the latest targets are the same. */
  lemma InterleavingsAgree(watched: seq<Target>, pulled: seq<Target>, c: seq<Target>, d: seq<Target>, slot: nat)
    requires Interleaving(watched, pulled, c) && Interleaving(watched, pulled, d) && UniqueMaxima(watched + pulled)
    ensures LatestOf(c, slot) == LatestOf(d, slot)
  {
    InterleavingMembers(watched, pulled, c);
    InterleavingMembers(watched, pulled, d);
    OrderIndependentExactly(watched + pulled);
  }

  // ---------------------------------------------------------------- actions

  /** What an accepted target makes the local authority do. */
  datatype Action = MarkActive(target: Target) | MarkWarming(target: Target) | Drain(target: Target)

  predicate LocallyCapable(local: nat, t: Target) {
    t.leader == 0 || t.leader == local
  }

  /** Whether replacing one accepted target by the next drains the replaced one. */
  predicate Drains(local: nat, previous: Target, next: Target) {
    LocallyCapable(local, previous) && next.leader != local
  }

  /** The targets of one slot whose drain was started, in order. */
  function Drained(local: nat, chain: seq<Target>): seq<Target>
    decreases |chain|
  {
    if |chain| < 2 then []
    else
      var n := |chain| - 1;
      Drained(local, chain[..n]) + if Drains(local, chain[n - 1], chain[n]) then [chain[n - 1]] else []
  }

  /**
   A drain starts exactly when a locally capable target is replaced by a strictly newer one
   that is not led by this node.
   */
  lemma {:induction false} DrainedExactly(local: nat, chain: seq<Target>)
    ensures forall t ::
      t in Drained(local, chain) <==> exists i ::
        0 <= i < |chain| - 1 && chain[i] == t && Drains(local, t, chain[i + 1])
    ensures forall i | 0 <= i < |chain| - 1 ::
      Drains(local, chain[i], chain[i + 1]) <==> chain[i].leader in {0, local} && chain[i + 1].leader != local
    decreases |chain|
  {
    if |chain| >= 2 {
      var n := |chain| - 1;
      var init := chain[..n];
      DrainedExactly(local, init);
      forall t ensures t in Drained(local, chain) <==> exists i ::
        0 <= i < n && chain[i] == t && Drains(local, t, chain[i + 1]) {
        if t in Drained(local, init) {
          var i :| 0 <= i < |init| - 1 && init[i] == t && Drains(local, t, init[i + 1]);
          assert chain[i] == t && Drains(local, t, chain[i + 1]);
        }
        if exists i :: 0 <= i < n && chain[i] == t && Drains(local, t, chain[i + 1]) {
          var i :| 0 <= i < n && chain[i] == t && Drains(local, t, chain[i + 1]);
          if i < n - 1 {
            assert init[i] == t && Drains(local, t, init[i + 1]);
          }
        }
      }
    }
  }

  /** No target of a slot is drained twice. */
  lemma {:induction false} DrainedOnce(local: nat, targets: seq<Target>, slot: nat)
    ensures var drained := Drained(local, Chain(targets, slot));
      forall i, j | 0 <= i < j < |drained| :: Newer(drained[j], drained[i])
  {
    ChainAscends(targets, slot);
    AscendingDrains(local, Chain(targets, slot));
  }

  lemma {:induction false} AscendingDrains(local: nat, chain: seq<Target>)
    requires forall i, j | 0 <= i < j < |chain| :: Newer(chain[j], chain[i])
    ensures forall i, j | 0 <= i < j < |Drained(local, chain)| ::
      Newer(Drained(local, chain)[j], Drained(local, chain)[i])
    decreases |chain|
  {
    if |chain| >= 2 {
      var n := |chain| - 1;
      AscendingDrains(local, chain[..n]);
      DrainedExactly(local, chain[..n]);
      forall t | t in Drained(local, chain[..n]) ensures Newer(chain[n - 1], t) {
        var i :| 0 <= i < n - 1 && chain[..n][i] == t;
        assert chain[i] == t;
      }
      var before := Drained(local, chain[..n]);
      assert forall i | 0 <= i < |before| :: before[i] in before;
    }
  }

  /** The drains in a list of actions, of one slot. */
  function DrainsIn(actions: seq<Action>, slot: nat): seq<Target>
    decreases |actions|
  {
    if actions == [] then []
    else
      var n := |actions| - 1;
      DrainsIn(actions[..n], slot) +
        if actions[n].Drain? && actions[n].target.hashSlot == slot then [actions[n].target] else []
  }

  /** The lifecycle's latest targets; the ghost history is every target it was given and every action it took. */
  class RouteLifecycle {
    const local: nat
    var latest: map<nat, Target>
    ghost var seen: seq<Target>
    ghost var actions: seq<Action>

    constructor (local: nat)
      ensures this.local == local && Valid() && seen == [] && actions == []
    {
      this.local, latest, seen, actions := local, map[], [], [];
    }

    /** The latest targets and the drains so far are those of the targets seen. */
    ghost predicate Valid()
      reads this
    {
      HoldsLatest(latest, seen) && forall slot: nat :: DrainsIn(actions, slot) == Drained(local, Chain(seen, slot))
    }

    /** Accepts a target that is the slot's first or newer than its latest. */
    method Accept(target: Target) returns (previous: Option<Target>, accepted: bool)
      modifies this`latest
      ensures previous == if target.hashSlot in old(latest) then Some(old(latest)[target.hashSlot]) else None
      ensures accepted == (previous.None? || Newer(target, previous.value))
      // Field by field, the first one that differs decides.
      ensures previous.Some? ==>
        var p := previous.value;
        accepted <==>
          || p.revision < target.revision
          || (p.revision == target.revision && p.configEpoch < target.configEpoch)
          || (p.revision == target.revision && p.configEpoch == target.configEpoch && p.term < target.term)
          || (p.revision == target.revision && p.configEpoch == target.configEpoch && p.term == target.term
              && p.authorityEpoch < target.authorityEpoch)
      ensures latest == if accepted then old(latest)[target.hashSlot := target] else old(latest)
    {
      if target.hashSlot in latest {
        var current := latest[target.hashSlot];
        if !Newer(target, current) {
          return Some(current), false;
        }
        previous := Some(current);
      } else {
        previous := None;
      }
      latest := latest[target.hashSlot := target];
      accepted := true;
    }

    /** Accepts a target and starts what its acceptance calls for. */
    method Handle(target: Target) returns (done: seq<Action>)
      requires Valid()
      modifies this
      ensures Valid() && seen == old(seen) + [target] && actions == old(actions) + done
      ensures var previous := LatestOf(old(seen), target.hashSlot);
        done ==
          if previous.Some? && !Newer(target, previous.value) then []
          else if target.leader == local then [MarkActive(target)]
          else (if previous.Some? && previous.value.leader in {0, local} then [Drain(previous.value)] else [])
               + if target.leader == 0 then [MarkWarming(target)] else []
    {
      CapableHere();
      hide Chain, Newer, DrainsIn, Drained, Drains, LocallyCapable;
      var previous, accepted := Accept(target);
      assert previous == LatestOf(seen, target.hashSlot);
      done := [];
      if accepted {
        if target.leader == local {
          done := [MarkActive(target)];
        } else if target.leader == 0 {
          if previous.Some? && LocallyCapable(local, previous.value) {
            done := done + [Drain(previous.value)];
          }
          done := done + [MarkWarming(target)];
        } else if previous.Some? && LocallyCapable(local, previous.value) {
          done := done + [Drain(previous.value)];
        }
      }
      OneMoreTarget(old(latest), seen, target, latest);
      OneMoreDrain(local, actions, done, seen, target, previous, accepted);
      seen, actions := seen + [target], actions + done;
    }

    lemma CapableHere()
      ensures forall t: Target :: LocallyCapable(local, t) <==> t.leader in {0, local}
    {
    }

    /** Handles the targets of one event or one pull, in order. */
    method Apply(targets: seq<Target>)
      requires Valid()
      modifies this
      ensures Valid() && seen == old(seen) + targets
    {
      for k := 0 to |targets|
        invariant Valid() && seen == old(seen) + targets[..k]
      {
        assert old(seen) + targets[..k] + [targets[k]] == old(seen) + targets[..k + 1];
        var _ := Handle(targets[k]);
      }
      assert targets[..|targets|] == targets;
    }
  }

  lemma ChainSnoc(targets: seq<Target>, t: Target, slot: nat)
    ensures Chain(targets + [t], slot)
         == if t.hashSlot == slot && (Chain(targets, slot) == []
           || Newer(t, Chain(targets, slot)[|Chain(targets, slot)| - 1]))
            then Chain(targets, slot) + [t] else Chain(targets, slot)
  {
    assert (targets + [t])[..|targets|] == targets;
  }

  lemma OneMoreTarget(latest: map<nat, Target>, seen: seq<Target>, t: Target, latest': map<nat, Target>)
    requires HoldsLatest(latest, seen)
    requires latest' ==
      if t.hashSlot !in latest || Newer(t, latest[t.hashSlot]) then latest[t.hashSlot := t] else latest
    ensures HoldsLatest(latest', seen + [t])
  {
    hide Chain, Newer;
    forall slot: nat
      ensures slot in latest' <==> Chain(seen + [t], slot) != []
      ensures slot in latest' ==> latest'[slot] == Chain(seen + [t], slot)[|Chain(seen + [t], slot)| - 1]
    {
      ChainSnoc(seen, t, slot);
    }
  }

  lemma DrainsSnoc(actions: seq<Action>, action: Action, slot: nat)
    ensures DrainsIn(actions + [action], slot)
         == DrainsIn(actions, slot) + if action.Drain? && action.target.hashSlot == slot then [action.target] else []
  {
    assert (actions + [action])[..|actions|] == actions;
  }

  /** What is done for a target: mark it, and drain the one that it replaces. */
  function ActionsFor(local: nat, t: Target, previous: Option<Target>, accepted: bool): seq<Action> {
    if !accepted then []
    else if t.leader == local then [MarkActive(t)]
    else
      (if previous.Some? && LocallyCapable(local, previous.value) then [Drain(previous.value)] else [])
      + if t.leader == 0 then [MarkWarming(t)] else []
  }

  lemma DrainedSnoc(local: nat, chain: seq<Target>, t: Target)
    ensures Drained(local, chain + [t]) == Drained(local, chain)
      + if chain != [] && Drains(local, chain[|chain| - 1], t) then [chain[|chain| - 1]] else []
  {
    assert (chain + [t])[..|chain|] == chain;
    hide Drains;
  }

  lemma DrainsOfActions(local: nat, actions: seq<Action>, t: Target, previous: Option<Target>, accepted: bool,
      slot: nat)
    ensures DrainsIn(actions + ActionsFor(local, t, previous, accepted), slot) == DrainsIn(actions, slot)
      + if accepted && previous.Some? && Drains(local, previous.value, t) && previous.value.hashSlot == slot
        then [previous.value] else []
  {
    var done := ActionsFor(local, t, previous, accepted);
    DrainsOfDone(actions, done, slot);
    WithNothing(DrainsIn(actions, slot));
    hide DrainsIn;
  }

  /** The latest target of a slot is a target of that slot. */
  lemma LatestInSlot(seen: seq<Target>, slot: nat)
    ensures LatestOf(seen, slot).Some? ==> LatestOf(seen, slot).value.hashSlot == slot
  {
    ChainMembers(seen, slot);
    hide Chain;
  }

  lemma OneMoreDrainAt(local: nat, actions: seq<Action>, seen: seq<Target>, t: Target, slot: nat)
    requires DrainsIn(actions, slot) == Drained(local, Chain(seen, slot))
    ensures var previous := LatestOf(seen, t.hashSlot); var accepted := previous.None? || Newer(t, previous.value);
      DrainsIn(actions + ActionsFor(local, t, previous, accepted), slot) == Drained(local, Chain(seen + [t], slot))
  {
    hide Chain, Newer, DrainsIn, Drained, ActionsFor, Drains;
    var previous := LatestOf(seen, t.hashSlot);
    var accepted := previous.None? || Newer(t, previous.value);
    DrainsOfActions(local, actions, t, previous, accepted, slot);
    LatestInSlot(seen, t.hashSlot);
    ChainSnoc(seen, t, slot);
    DrainedSnoc(local, Chain(seen, slot), t);
    WithNothing(DrainsIn(actions, slot));
  }

  lemma OneMoreDrain(local: nat, actions: seq<Action>, done: seq<Action>, seen: seq<Target>, t: Target,
      previous: Option<Target>, accepted: bool)
    requires forall slot: nat :: DrainsIn(actions, slot) == Drained(local, Chain(seen, slot))
    requires previous == LatestOf(seen, t.hashSlot) && accepted == (previous.None? || Newer(t, previous.value))
    requires done == ActionsFor(local, t, previous, accepted)
    ensures forall slot: nat :: DrainsIn(actions + done, slot) == Drained(local, Chain(seen + [t], slot))
  {
    hide *;
    forall slot: nat ensures DrainsIn(actions + done, slot) == Drained(local, Chain(seen + [t], slot)) {
      OneMoreDrainAt(local, actions, seen, t, slot);
    }
  }

  /** At most two actions are taken at once, and at most one of them is a drain. */
  lemma DrainsOfDone(actions: seq<Action>, done: seq<Action>, slot: nat)
    requires |done| <= 2
    ensures |done| == 0 ==> DrainsIn(actions + done, slot) == DrainsIn(actions, slot)
    ensures |done| == 1 || (|done| == 2 && !done[1].Drain?) ==>
      var drained := if done[0].Drain? && done[0].target.hashSlot == slot then [done[0].target] else [];
      DrainsIn(actions + done, slot) == DrainsIn(actions, slot) + drained
  {
    if |done| == 0 {
      assert actions + done == actions;
    } else if |done| == 1 {
      assert actions + done == actions + [done[0]];
      DrainsSnoc(actions, done[0], slot);
    } else {
      assert actions + done == (actions + [done[0]]) + [done[1]];
      DrainsSnoc(actions, done[0], slot);
      DrainsSnoc(actions + [done[0]], done[1], slot);
    }
  }
}
