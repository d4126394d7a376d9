/**
 The partition topology of a delivery tag (internal/app/deliveryrouting.go:729-844): building
 it from the cluster, and validating a stored one against the cluster.
 */
module Topology {
  import opened Options
  import opened Routes
  import opened Ascending

  datatype Assignment = Assignment(slot: nat, epoch: nat, balance: nat)

  datatype SlotRef = SlotRef(slot: nat, leader: nat, epoch: nat, balance: nat)

  datatype Version = Version(table: nat, refs: seq<SlotRef>)

  datatype LeaderError = LeaderError

  /** What the cluster answers: it may or may not keep a cached assignment list beside the listed one. */
  datatype Cluster = Cluster(
    slotFor: UID -> nat,
    leaderOf: nat -> Option<nat>,
    table: nat,
    cached: Option<seq<Assignment>>,
    listed: seq<Assignment>)

  // ---------------------------------------------------------------- assignments by slot

  /** Later assignments of a slot replace earlier ones, until every required slot has one. */
  function Collect(assignments: seq<Assignment>, required: seq<nat>, m: map<nat, Assignment>): map<nat, Assignment> {
    if assignments == [] then m
    else if assignments[0].slot !in required then Collect(assignments[1..], required, m)
    else
      var m' := m[assignments[0].slot := assignments[0]];
      if |m'| == |required| then m' else Collect(assignments[1..], required, m')
  }

  predicate Assigns(assignments: seq<Assignment>, slot: nat) {
    exists i :: 0 <= i < |assignments| && assignments[i].slot == slot
  }

  ghost predicate OwnAssignments(m: map<nat, Assignment>, required: seq<nat>) {
    forall s :: s in m ==> s in required && m[s].slot == s
  }

  /** Once the map has as many slots as are required, it has every required slot. */
  lemma FullCovers(m: map<nat, Assignment>, required: seq<nat>)
    requires StrictlyAscending(required) && OwnAssignments(m, required) && |m| == |required|
    ensures forall s :: s in required ==> s in m
  {
    AscendingCount(required);
    assert m.Keys <= Members(required);
    SameSizeSubset(m.Keys, Members(required));
  }

  ghost function Members(s: seq<nat>): (r: set<nat>)
    ensures forall x: nat :: x in r <==> x in s
    decreases |s|
  {
    if s == [] then {}
    else
      assert s == s[..|s| - 1] + [s[|s| - 1]];
      Members(s[..|s| - 1]) + {s[|s| - 1]}
  }

  lemma {:induction false} AscendingCount(s: seq<nat>)
    requires StrictlyAscending(s)
    ensures |Members(s)| == |s|
    decreases |s|
  {
    if s != [] {
      AscendingCount(s[..|s| - 1]);
      assert s[|s| - 1] !in s[..|s| - 1];
    }
  }

  lemma {:induction false} SameSizeSubset(a: set<nat>, b: set<nat>)
    requires a <= b && |a| == |b|
    ensures a == b
    decreases |a|
  {
    if a == {} {
      assert |b| == 0;
    } else {
      var x :| x in a;
      SameSizeSubset(a - {x}, b - {x});
      assert a == (a - {x}) + {x} && b == (b - {x}) + {x};
    }
  }

  lemma {:induction false} SubsetSize(a: set<nat>, b: set<nat>)
    requires a <= b
    ensures |a| <= |b|
    decreases |a|
  {
    if a != {} {
      var x :| x in a;
      SubsetSize(a - {x}, b - {x});
    }
  }

  /** The result has exactly the required slots that some assignment names, each with an assignment of its own. */
  lemma {:induction false} CollectCovers(assignments: seq<Assignment>, required: seq<nat>, m: map<nat, Assignment>)
    requires StrictlyAscending(required) && OwnAssignments(m, required)
    ensures var r := Collect(assignments, required, m);
      && OwnAssignments(r, required)
      && forall s :: s in r <==> s in m || (s in required && Assigns(assignments, s))
    decreases |assignments|
  {
    if assignments != [] {
      var a, rest := assignments[0], assignments[1..];
      forall s: nat ensures Assigns(assignments, s) <==> a.slot == s || Assigns(rest, s) {
        if Assigns(rest, s) {
          var i :| 0 <= i < |rest| && rest[i].slot == s;
          assert assignments[i + 1].slot == s;
        }
        if Assigns(assignments, s) && a.slot != s {
          var i :| 0 <= i < |assignments| && assignments[i].slot == s;
          assert rest[i - 1].slot == s;
        }
      }
      if a.slot !in required {
        CollectCovers(rest, required, m);
      } else {
        var m' := m[a.slot := a];
        if |m'| == |required| {
          FullCovers(m', required);
        } else {
          CollectCovers(rest, required, m');
        }
      }
    }
  }

  /** The first k assignments name the slot, and the last of them that does is a. */
  predicate LastFor(assignments: seq<Assignment>, k: nat, slot: nat, a: Assignment) {
    exists i: nat :: i < k <= |assignments| && assignments[i] == a && a.slot == slot
      && forall j | i < j < k :: assignments[j].slot != slot
  }

  /** Some required slot is not named by the first k assignments. */
  ghost predicate LacksOne(assignments: seq<Assignment>, k: nat, required: seq<nat>) {
    exists s :: s in required && forall i | 0 <= i < k <= |assignments| :: assignments[i].slot != s
  }

  /** The map has each required slot that the first k assignments name, with the last of them that does. */
  ghost predicate LastOnes(assignments: seq<Assignment>, k: nat, required: seq<nat>, m: map<nat, Assignment>) {
    && k <= |assignments|
    && (forall s :: s in m ==> s in required && LastFor(assignments, k, s, m[s]))
    && (forall i | 0 <= i < k :: assignments[i].slot in required ==> assignments[i].slot in m)
  }

  lemma LastOneMore(assignments: seq<Assignment>, k: nat, required: seq<nat>, m: map<nat, Assignment>)
    requires k < |assignments| && LastOnes(assignments, k, required, m)
    ensures var a := assignments[k];
      LastOnes(assignments, k + 1, required, if a.slot in required then m[a.slot := a] else m)
  {
    var a := assignments[k];
    var after := if a.slot in required then m[a.slot := a] else m;
    forall s | s in after ensures s in required && LastFor(assignments, k + 1, s, after[s]) {
      if s != a.slot {
        assert LastFor(assignments, k, s, m[s]);
        var i: nat :| i < k && assignments[i] == m[s] && m[s].slot == s && forall j | i < j < k ::
          assignments[j].slot != s;
      } else {
        assert assignments[k] == after[s];
      }
    }
  }

  /** Fewer slots than are required: one of them is not named yet. */
  lemma OneIsLacking(assignments: seq<Assignment>, k: nat, required: seq<nat>, m: map<nat, Assignment>)
    requires StrictlyAscending(required) && LastOnes(assignments, k, required, m) && |m| < |required|
    ensures LacksOne(assignments, k, required)
  {
    AscendingCount(required);
    hide LastFor;
    if Members(required) <= m.Keys {
      SubsetSize(Members(required), m.Keys);
      assert false;
    }
    var s :| s in Members(required) && s !in m;
  }

  lemma LackingBefore(assignments: seq<Assignment>, k: nat, j: nat, required: seq<nat>)
    requires j <= k <= |assignments| && LacksOne(assignments, k, required)
    ensures LacksOne(assignments, j, required)
  {
    var s :| s in required && forall i | 0 <= i < k :: assignments[i].slot != s;
    assert forall i | 0 <= i < j :: assignments[i].slot != s;
  }

  /** Collecting reads the list up to the first point where every required slot is named, and no further. */
  lemma {:induction false} CollectTakesTheLast(assignments: seq<Assignment>, required: seq<nat>, k: nat,
      m: map<nat, Assignment>) returns (cut: nat)
    requires StrictlyAscending(required) && LastOnes(assignments, k, required, m) && |m| < |required|
    ensures k <= cut <= |assignments| && LastOnes(assignments, cut, required, Collect(assignments[k..], required, m))
    ensures cut < |assignments| ==> !LacksOne(assignments, cut, required)
    ensures forall j: nat | j < cut :: LacksOne(assignments, j, required)
    decreases |assignments| - k
  {
    hide LastFor, LacksOne;
    OneIsLacking(assignments, k, required, m);
    forall j: nat | j <= k ensures LacksOne(assignments, j, required) {
      LackingBefore(assignments, k, j, required);
    }
    if k == |assignments| {
      return k;
    }
    assert assignments[k..][1..] == assignments[k + 1..];
    LastOneMore(assignments, k, required, m);
    var a := assignments[k];
    var m' := if a.slot in required then m[a.slot := a] else m;
    if |m'| == |required| {
      AllNamed(assignments, k + 1, required, m');
      return k + 1;
    }
    assert |m'| <= |m| + 1;
    cut := CollectTakesTheLast(assignments, required, k + 1, m');
  }

  lemma AllNamed(assignments: seq<Assignment>, k: nat, required: seq<nat>, m: map<nat, Assignment>)
    requires StrictlyAscending(required) && LastOnes(assignments, k, required, m) && |m| == |required|
    ensures !LacksOne(assignments, k, required)
  {
    forall s | s in m ensures m[s].slot == s && exists i :: 0 <= i < k && assignments[i].slot == s {
      assert LastFor(assignments, k, s, m[s]);
    }
    hide LastFor;
    FullCovers(m, required);
  }

  method AssignmentBySlot(assignments: seq<Assignment>, required: seq<nat>) returns (m: map<nat, Assignment>)
    ensures m == Collect(assignments, required, map[])
  {
    m := map[];
    assert assignments[0..] == assignments;
    for k := 0 to |assignments|
      invariant Collect(assignments[k..], required, m) == Collect(assignments, required, map[])
    {
      assert assignments[k..][1..] == assignments[k + 1..];
      if assignments[k].slot !in required {
        continue;
      }
      m := m[assignments[k].slot := assignments[k]];
      if |m| == |required| {
        return;
      }
    }
  }

  predicate Covers(m: map<nat, Assignment>, required: seq<nat>) {
    forall s :: s in required ==> s in m
  }

  /** The cached list counts only when it covers every required slot and is not empty. */
  function Assignments(cluster: Cluster, required: seq<nat>): map<nat, Assignment> {
    if required == [] then map[]
    else if cluster.cached.Some? && Covers(Collect(cluster.cached.value, required, map[]), required)
    then Collect(cluster.cached.value, required, map[])
    else Collect(cluster.listed, required, map[])
  }

  /** The assignments cover the slots if and only if one of the two lists assigns all of them. */
  lemma CoveredExactly(cluster: Cluster, required: seq<nat>)
    requires StrictlyAscending(required)
    ensures Covers(Assignments(cluster, required), required)
            <==> (cluster.cached.Some? && forall s :: s in required ==> Assigns(cluster.cached.value, s))
                 || forall s :: s in required ==> Assigns(cluster.listed, s)
  {
    hide Collect, Assigns;
    if cluster.cached.Some? {
      CollectCovers(cluster.cached.value, required, map[]);
    }
    CollectCovers(cluster.listed, required, map[]);
  }

  /**
   The assignments that count: of the cached list if it names every required slot, of the listed
   one otherwise; of that list the last ones before the point where every required slot is named.
   */
  lemma AssignmentsTaken(cluster: Cluster, required: seq<nat>) returns (list: seq<Assignment>, cut: nat)
    requires StrictlyAscending(required) && required != []
    ensures
      var cached := cluster.cached.Some? && !LacksOne(cluster.cached.value, |cluster.cached.value|, required);
      list == if cached then cluster.cached.value else cluster.listed
    ensures LastOnes(list, cut, required, Assignments(cluster, required))
    ensures cut < |list| ==> !LacksOne(list, cut, required)
    ensures forall j: nat | j < cut :: LacksOne(list, j, required)
  {
    var cached := cluster.cached.Some? && Covers(Collect(cluster.cached.value, required, map[]), required);
    list := if cached then cluster.cached.value else cluster.listed;
    if cluster.cached.Some? {
      CollectCovers(cluster.cached.value, required, map[]);
      NamesAll(cluster.cached.value, required);
    }
    hide Collect, LacksOne, LastFor;
    cut := CollectTakesTheLast(list, required, 0, map[]);
    assert list[0..] == list;
  }

  lemma NamesAll(assignments: seq<Assignment>, required: seq<nat>)
    ensures !LacksOne(assignments, |assignments|, required) <==>
      forall s :: s in required ==> Assigns(assignments, s)
  {
  }

  method CurrentAssignments(cluster: Cluster, required: seq<nat>) returns (m: map<nat, Assignment>)
    ensures m == Assignments(cluster, required)
  {
    if required == [] {
      return map[];
    }
    if cluster.cached.Some? {
      m := AssignmentBySlot(cluster.cached.value, required);
      var covers := m != map[];
      for k := 0 to |required|
        invariant covers <==> m != map[] && forall j | 0 <= j < k :: required[j] in m
      {
        if required[k] !in m {
          covers := false;
        }
      }
      assert covers <==> Covers(m, required) by {
        assert required[0] in required;
      }
      if covers {
        return;
      }
    }
    m := AssignmentBySlot(cluster.listed, required);
  }

  // ---------------------------------------------------------------- building

  function SlotsOf(cluster: Cluster, uids: seq<UID>): set<nat> {
    set u | u in uids :: cluster.slotFor(u)
  }

  /** The reference of one slot; a slot without an assignment gets zero epochs. */
  function RefOf(cluster: Cluster, m: map<nat, Assignment>, slot: nat): SlotRef
    requires cluster.leaderOf(slot).Some?
  {
    SlotRef(slot, cluster.leaderOf(slot).value, if slot in m then m[slot].epoch else 0,
      if slot in m then m[slot].balance else 0)
  }

  /** A version that lists the slots in ascending order with their current leaders and assignments. */
  ghost predicate IsCurrent(cluster: Cluster, slots: seq<nat>, v: Version) {
    && v.table == cluster.table && |v.refs| == |slots|
    && forall i | 0 <= i < |slots| ::
         cluster.leaderOf(slots[i]).Some? && v.refs[i] == RefOf(cluster, Assignments(cluster, slots), slots[i])
  }

  ghost predicate KnownLeaders(cluster: Cluster, slots: seq<nat>) {
    forall i | 0 <= i < |slots| :: cluster.leaderOf(slots[i]).Some?
  }

  /** Builds the topology of a subscriber list; without a cluster it is the empty one. */
  method CurrentTopology(cluster: Option<Cluster>, uids: seq<UID>) returns (r: Result<Version, LeaderError>,
      ghost slots: seq<nat>)
    ensures cluster.None? ==> r == Ok(Version(0, []))
    ensures cluster.Some? ==> StrictlyAscending(slots) && forall s :: s in slots <==> s in SlotsOf(cluster.value, uids)
    ensures cluster.Some? ==> (r.Ok? <==> KnownLeaders(cluster.value, slots))
    ensures cluster.Some? && r.Ok? ==> IsCurrent(cluster.value, slots, r.value)
    // Reference by reference.
    ensures cluster.Some? ==> forall s :: s in slots <==> exists u :: u in uids && cluster.value.slotFor(u) == s
    ensures cluster.Some? && r.Ok? ==>
      var m := Assignments(cluster.value, slots);
      && r.value.table == cluster.value.table && |r.value.refs| == |slots|
      && forall i | 0 <= i < |slots| :: var ref := r.value.refs[i];
           && ref.slot == slots[i] && cluster.value.leaderOf(slots[i]) == Some(ref.leader)
           && ref.epoch == (if slots[i] in m then m[slots[i]].epoch else 0)
           && ref.balance == (if slots[i] in m then m[slots[i]].balance else 0)
  {
    slots := [];
    if cluster.None? {
      return Ok(Version(0, [])), slots;
    }
    var c := cluster.value;
    var slotSet: set<nat> := {};
    for k := 0 to |uids|
      invariant slotSet == SlotsOf(c, uids[..k])
    {
      assert forall u :: u in uids[..k + 1] <==> u in uids[..k] || u == uids[k];
      slotSet := slotSet + {c.slotFor(uids[k])};
    }
    assert uids[..|uids|] == uids;
    var ids := Sort(slotSet);
    slots := ids;
    var m := CurrentAssignments(c, ids);
    var refs := [];
    for k := 0 to |ids|
      invariant |refs| == k
      invariant forall i | 0 <= i < k :: c.leaderOf(ids[i]).Some? && refs[i] == RefOf(c, m, ids[i])
    {
      var leader := c.leaderOf(ids[k]);
      if leader.None? {
        return Err(LeaderError), slots;
      }
      var epoch, balance := 0, 0;
      if ids[k] in m {
        epoch, balance := m[ids[k]].epoch, m[ids[k]].balance;
      }
      refs := refs + [SlotRef(ids[k], leader.value, epoch, balance)];
    }
    return Ok(Version(c.table, refs)), slots;
  }

  // ---------------------------------------------------------------- validating

  function SlotIds(refs: seq<SlotRef>): (ids: seq<nat>)
    ensures |ids| == |refs| && forall i | 0 <= i < |refs| :: ids[i] == refs[i].slot
  {
    if refs == [] then [] else SlotIds(refs[..|refs| - 1]) + [refs[|refs| - 1].slot]
  }

  /** The reference at i agrees with the cluster. */
  ghost predicate RefMatches(cluster: Cluster, m: map<nat, Assignment>, ref: SlotRef) {
    && cluster.leaderOf(ref.slot) == Some(ref.leader)
    && ref.slot in m && m[ref.slot].epoch == ref.epoch && m[ref.slot].balance == ref.balance
  }

  /** The version agrees with the cluster in every reference. */
  ghost predicate Validates(cluster: Cluster, v: Version) {
    var m := Assignments(cluster, SlotIds(v.refs));
    v.table == cluster.table && forall i | 0 <= i < |v.refs| :: RefMatches(cluster, m, v.refs[i])
  }

  /** The first thing that is wrong with the version is a leader that cannot be looked up. */
  ghost predicate FailsFirst(cluster: Cluster, v: Version) {
    v.table == cluster.table && exists i: nat :: FailsAt(cluster, v.refs, i)
  }

  ghost predicate FailsAt(cluster: Cluster, refs: seq<SlotRef>, i: nat) {
    && i < |refs| && cluster.leaderOf(refs[i].slot).None?
    && forall j | 0 <= j < i :: RefMatches(cluster, Assignments(cluster, SlotIds(refs)), refs[j])
  }

  /**
   Says whether a stored version still holds. A failing leader lookup is an error only when no
   earlier reference has already failed to match.
   */
  method ValidateTopology(cluster: Option<Cluster>, v: Version) returns (r: Result<bool, LeaderError>)
    ensures cluster.None? ==> r == Ok(true)
    ensures cluster.Some? ==> (r == Ok(true) <==> Validates(cluster.value, v))
    // Reference by reference.
    ensures cluster.Some? ==>
      var m := Assignments(cluster.value, SlotIds(v.refs));
      (r == Ok(true) <==>
        && v.table == cluster.value.table
        && forall i | 0 <= i < |v.refs| :: var ref := v.refs[i];
             && cluster.value.leaderOf(ref.slot) == Some(ref.leader)
             && ref.slot in m && m[ref.slot].epoch == ref.epoch && m[ref.slot].balance == ref.balance)
    ensures cluster.Some? ==> (r.Err? <==> FailsFirst(cluster.value, v))
  {
    if cluster.None? {
      return Ok(true);
    }
    var c := cluster.value;
    if v.table != c.table {
      return Ok(false);
    }
    if v.refs == [] {
      return Ok(true);
    }
    var ids := SlotIds(v.refs);
    var m := CurrentAssignments(c, ids);
    for k := 0 to |v.refs|
      invariant forall i | 0 <= i < k :: RefMatches(c, m, v.refs[i])
    {
      var ref := v.refs[k];
      var leader := c.leaderOf(ref.slot);
      if leader.None? {
        assert FailsAt(c, v.refs, k);
        return Err(LeaderError);
      }
      if ref.slot !in m {
        assert !RefMatches(c, m, v.refs[k]);
        return Ok(false);
      }
      if leader.value != ref.leader || m[ref.slot].epoch != ref.epoch || m[ref.slot].balance != ref.balance {
        assert !RefMatches(c, m, v.refs[k]);
        return Ok(false);
      }
    }
    return Ok(true);
  }

  // ---------------------------------------------------------------- the two agree

  /**
   On an unchanged cluster, for a version whose references list exactly the slots of some
   subscribers in ascending order: validation accepts it if and only if building would
   produce it and the assignments cover those slots.
   */
  lemma ValidatesExactlyTheCurrent(cluster: Cluster, slots: seq<nat>, v: Version)
    requires StrictlyAscending(slots) && SlotIds(v.refs) == slots
    ensures Validates(cluster, v) <==> IsCurrent(cluster, slots, v) && Covers(Assignments(cluster, slots), slots)
  {
    var m := Assignments(cluster, slots);
    if Validates(cluster, v) {
      forall i | 0 <= i < |slots| ensures slots[i] in m && v.refs[i] == RefOf(cluster, m, slots[i]) {
        assert RefMatches(cluster, m, v.refs[i]);
      }
    }
    if IsCurrent(cluster, slots, v) && Covers(m, slots) {
      forall i | 0 <= i < |slots| ensures RefMatches(cluster, m, v.refs[i]) {
        assert slots[i] in slots;
      }
    }
  }

  /** What was built is validated if and only if its assignments cover its slots; with no slots it always is. */
  lemma BuiltIsValidatedExactlyWhenCovered(cluster: Cluster, slots: seq<nat>, v: Version)
    requires StrictlyAscending(slots) && IsCurrent(cluster, slots, v)
    ensures SlotIds(v.refs) == slots
    ensures Validates(cluster, v) <==> Covers(Assignments(cluster, slots), slots)
    ensures slots == [] ==> Validates(cluster, v)
  {
    forall i | 0 <= i < |slots| ensures SlotIds(v.refs)[i] == slots[i] {
      assert v.refs[i].slot == slots[i];
    }
    assert SlotIds(v.refs) == slots;
    ValidatesExactlyTheCurrent(cluster, slots, v);
  }

  /** A validated version over exactly the slots of the subscribers is the one that building produces. */
  lemma ValidatedIsBuilt(cluster: Cluster, uids: seq<UID>, slots: seq<nat>, v: Version, built: Version)
    requires StrictlyAscending(slots) && forall s :: s in slots <==> s in SlotsOf(cluster, uids)
    requires IsCurrent(cluster, slots, built)
    requires StrictlyAscending(SlotIds(v.refs)) && forall s :: s in SlotIds(v.refs) <==> s in SlotsOf(cluster, uids)
    requires Validates(cluster, v)
    ensures v == built
  {
    AscendingUnique(SlotIds(v.refs), slots);
    ValidatesExactlyTheCurrent(cluster, slots, v);
    assert forall i | 0 <= i < |slots| :: v.refs[i] == built.refs[i];
  }
}
