/**
 Routing of pending CMD conversation intents to the owners of their UIDs
 (internal/app/cmdsync_intent.go:45-75, 101-262). Owners may change at any time: every owner
 lookup asks the cluster at its own moment.
 */
module CmdIntent {
  import opened Options
  import opened Sequences

  type UID = string

  // ---------------------------------------------------------------- trimming

  /** The white space that trimming removes at both ends. */
  predicate IsSpace(c: char) {
    || c in {'\t', '\n', '\r', ' ', '\U{0B}', '\U{0C}', '\U{85}', '\U{A0}', '\U{1680}', '\U{2028}', '\U{2029}',
      '\U{202F}', '\U{205F}', '\U{3000}'}
    || '\U{2000}' <= c <= '\U{200A}'
  }

  function TrimLeft(s: string): (r: string)
    ensures r == [] || !IsSpace(r[0])
    ensures s != [] && !IsSpace(s[0]) ==> r == s
    ensures |r| <= |s| && r == s[|s| - |r|..] && forall i | 0 <= i < |s| - |r| :: IsSpace(s[i])
  {
    if s == [] || !IsSpace(s[0]) then s else TrimLeft(s[1..])
  }

  function TrimRight(s: string): (r: string)
    ensures r == [] || !IsSpace(r[|r| - 1])
    ensures s != [] && !IsSpace(s[|s| - 1]) ==> r == s
    ensures r <= s && forall i | |r| <= i < |s| :: IsSpace(s[i])
  {
    if s == [] || !IsSpace(s[|s| - 1]) then s else TrimRight(s[..|s| - 1])
  }

  function TrimSpace(s: string): string {
    TrimRight(TrimLeft(s))
  }

  lemma TrimTwice(s: string)
    ensures TrimSpace(TrimSpace(s)) == TrimSpace(s)
  {
    var left := TrimLeft(s);
    var both := TrimRight(left);
    if both != [] {
      assert both[0] == left[0];
    }
  }

  // ---------------------------------------------------------------- normalization

  datatype Intent = Intent(channel: string, channelType: nat, messageSeq: nat, sender: UID, readSeqs: map<UID, nat>)

  /** What makes an intent acceptable; a channel must be a command channel. */
  predicate Acceptable(isCommand: string -> bool, intent: Intent) {
    && intent.messageSeq != 0 && TrimSpace(intent.channel) != "" && isCommand(TrimSpace(intent.channel))
      && intent.channelType != 0
    && intent.readSeqs != map[]
    && forall u :: u in intent.readSeqs ==> TrimSpace(u) != "" && intent.readSeqs[u] <= intent.messageSeq
  }

  /** Each trimmed UID has the greatest read sequence of all UIDs that trim to it. */
  ghost predicate IsMaximum(readSeqs: map<UID, nat>, normal: map<UID, nat>) {
    && (forall u :: u in readSeqs ==> TrimSpace(u) in normal && readSeqs[u] <= normal[TrimSpace(u)])
    && (forall v :: v in normal ==> exists u :: u in readSeqs && TrimSpace(u) == v && readSeqs[u] == normal[v])
  }

  /** There is only one such map: the result does not depend on the order in which the UIDs are visited. */
  lemma MaximumIsUnique(readSeqs: map<UID, nat>, a: map<UID, nat>, b: map<UID, nat>)
    requires IsMaximum(readSeqs, a) && IsMaximum(readSeqs, b)
    ensures a == b
  {
    hide TrimSpace;
    forall v | v in a ensures v in b && a[v] <= b[v] {
      var u :| u in readSeqs && TrimSpace(u) == v && readSeqs[u] == a[v];
    }
    forall v | v in b ensures v in a && b[v] <= a[v] {
      var u :| u in readSeqs && TrimSpace(u) == v && readSeqs[u] == b[v];
    }
  }

  ghost predicate AcceptableReads(readSeqs: map<UID, nat>, left: set<UID>, messageSeq: nat) {
    forall u :: u in readSeqs && u !in left ==> TrimSpace(u) != "" && readSeqs[u] <= messageSeq
  }

  /** Merges the read sequences of UIDs that trim to the same one, in any order. */
  method MergeReads(readSeqs: map<UID, nat>, messageSeq: nat) returns (merged: Option<map<UID, nat>>)
    ensures merged.Some? <==> AcceptableReads(readSeqs, {}, messageSeq)
    ensures merged.Some? ==> MaximumSoFar(readSeqs, {}, merged.value)
  {
    hide *;
    var normal: map<UID, nat> := map[];
    var left := readSeqs.Keys;
    NothingMerged(readSeqs, messageSeq);
    while left != {}
      invariant left <= readSeqs.Keys && AcceptableReads(readSeqs, left, messageSeq)
        && MaximumSoFar(readSeqs, left, normal)
      decreases left
    {
      var uid :| uid in left;
      var trimmed, readSeq := TrimSpace(uid), readSeqs[uid];
      OneMoreChecked(readSeqs, left, messageSeq, uid);
      if trimmed == "" || readSeq > messageSeq {
        return None;
      }
      OneMoreRead(readSeqs, left, normal, uid);
      if trimmed !in normal || readSeq > normal[trimmed] {
        normal := normal[trimmed := readSeq];
      }
      left := left - {uid};
    }
    return Some(normal);
  }

  lemma NothingMerged(readSeqs: map<UID, nat>, messageSeq: nat)
    ensures AcceptableReads(readSeqs, readSeqs.Keys, messageSeq) && MaximumSoFar(readSeqs, readSeqs.Keys, map[])
  {
  }

  lemma OneMoreChecked(readSeqs: map<UID, nat>, left: set<UID>, messageSeq: nat, uid: UID)
    requires AcceptableReads(readSeqs, left, messageSeq) && uid in left && uid in readSeqs
    ensures if TrimSpace(uid) != "" && readSeqs[uid] <= messageSeq then AcceptableReads(readSeqs, left - {uid},
      messageSeq)
            else !AcceptableReads(readSeqs, {}, messageSeq)
  {
    hide TrimSpace;
  }

  method Normalize(isCommand: string -> bool, intent: Intent) returns (r: Option<Intent>)
    ensures r.Some? <==> Acceptable(isCommand, intent)
    ensures r.Some? <==>
      && intent.messageSeq > 0 && intent.channelType > 0 && intent.readSeqs.Keys != {}
      && TrimSpace(intent.channel) != "" && isCommand(TrimSpace(intent.channel))
      && forall u :: u in intent.readSeqs ==> TrimSpace(u) != "" && intent.readSeqs[u] <= intent.messageSeq
    ensures r.Some? ==>
      && r.value.channel == TrimSpace(intent.channel) && r.value.sender == TrimSpace(intent.sender)
      && r.value.channelType == intent.channelType && r.value.messageSeq == intent.messageSeq
    ensures r.Some? ==> IsMaximum(intent.readSeqs, r.value.readSeqs) && r.value == Trimmed(intent, r.value.readSeqs)
  {
    hide TrimSpace;
    var channel := TrimSpace(intent.channel);
    if intent.messageSeq == 0 || channel == "" || !isCommand(channel) || intent.channelType == 0 {
      return None;
    }
    if intent.readSeqs == map[] {
      return None;
    }
    var merged := MergeReads(intent.readSeqs, intent.messageSeq);
    if merged.None? {
      return None;
    }
    return Some(intent.(channel := channel, sender := TrimSpace(intent.sender), readSeqs := merged.value));
  }

  function Trimmed(intent: Intent, readSeqs: map<UID, nat>): Intent {
    Intent(TrimSpace(intent.channel), intent.channelType, intent.messageSeq, TrimSpace(intent.sender), readSeqs)
  }

  ghost predicate MaximumSoFar(readSeqs: map<UID, nat>, left: set<UID>, normal: map<UID, nat>) {
    && (forall u :: u in readSeqs && u !in left ==> TrimSpace(u) in normal && readSeqs[u] <= normal[TrimSpace(u)])
    && (forall v ::
      v in normal ==> exists u :: u in readSeqs && u !in left && TrimSpace(u) == v && readSeqs[u] == normal[v])
  }

  lemma OneMoreRead(readSeqs: map<UID, nat>, left: set<UID>, normal: map<UID, nat>, uid: UID)
    requires MaximumSoFar(readSeqs, left, normal) && uid in left && uid in readSeqs
    ensures var v := TrimSpace(uid);
      MaximumSoFar(readSeqs, left - {uid},
        if v !in normal || readSeqs[uid] > normal[v] then normal[v := readSeqs[uid]] else normal)
  {
    hide TrimSpace;
    var v := TrimSpace(uid);
    var after := if v !in normal || readSeqs[uid] > normal[v] then normal[v := readSeqs[uid]] else normal;
    forall w | w in after ensures exists u ::
      u in readSeqs && u !in left - {uid} && TrimSpace(u) == w && readSeqs[u] == after[w] {
      if w in normal && after[w] == normal[w] {
        var u :| u in readSeqs && u !in left && TrimSpace(u) == w && readSeqs[u] == normal[w];
        assert u !in left - {uid};
      } else {
        assert uid !in left - {uid};
      }
    }
  }

  /** A normalized intent is acceptable and its own normal form. */
  ghost predicate IsNormal(isCommand: string -> bool, intent: Intent) {
    Acceptable(isCommand, intent) && IsMaximum(intent.readSeqs, intent.readSeqs)
  }

  lemma NormalAgain(isCommand: string -> bool, intent: Intent, normal: Intent)
    requires Acceptable(isCommand, intent) && IsMaximum(intent.readSeqs, normal.readSeqs)
      && normal == Trimmed(intent, normal.readSeqs)
    ensures IsNormal(isCommand, normal) && normal.readSeqs != map[]
    ensures forall v :: v in normal.readSeqs ==> TrimSpace(v) == v
  {
    TrimTwice(intent.channel);
    hide TrimSpace;
    forall v | v in normal.readSeqs ensures TrimSpace(v) == v && v != "" && normal.readSeqs[v] <= normal.messageSeq {
      var u :| u in intent.readSeqs && TrimSpace(u) == v && intent.readSeqs[u] == normal.readSeqs[v];
      TrimTwice(u);
    }
    assert normal.readSeqs != map[] by {
      var u :| u in intent.readSeqs;
      assert TrimSpace(u) in normal.readSeqs;
    }
  }

  /** A part of a normalized intent is normalized, unless it is empty. */
  lemma PartIsNormal(isCommand: string -> bool, normal: Intent, part: map<UID, nat>)
    requires IsNormal(isCommand, normal) && (forall v :: v in normal.readSeqs ==> TrimSpace(v) == v)
    requires part != map[] && forall u :: u in part ==> u in normal.readSeqs && part[u] == normal.readSeqs[u]
    ensures IsNormal(isCommand, normal.(readSeqs := part)) && forall v :: v in part ==> TrimSpace(v) == v
  {
  }

  // ---------------------------------------------------------------- what was stored

  /** One stored read sequence: the node that stored it and the moment of the owner lookup that chose the node. */
  datatype Stored = Stored(node: nat, uid: UID, readSeq: nat, lookup: nat)

  function For(log: seq<Stored>, uid: UID): seq<Stored>
    decreases |log|
  {
    if log == [] then []
    else
      var n := |log| - 1;
      For(log[..n], uid) + if log[n].uid == uid then [log[n]] else []
  }

  lemma {:induction false} ForConcat(a: seq<Stored>, b: seq<Stored>, uid: UID)
    ensures For(a + b, uid) == For(a, uid) + For(b, uid)
    decreases |b|
  {
    if b == [] {
      assert a + b == a;
    } else {
      assert (a + b)[..|a + b| - 1] == a + b[..|b| - 1];
      ForConcat(a, b[..|b| - 1], uid);
    }
  }

  /** Each UID of the map was stored exactly once and unchanged, and nothing else was stored. */
  ghost predicate StoresExactly(log: seq<Stored>, readSeqs: map<UID, nat>) {
    forall u: UID ::
      if u in readSeqs then |For(log, u)| == 1 && For(log, u)[0].readSeq == readSeqs[u] else For(log, u) == []
  }

  /** Of the map, exactly the UIDs in `stored` were stored. */
  ghost predicate StoresSome(log: seq<Stored>, readSeqs: map<UID, nat>, stored: set<UID>) {
    forall u: UID ::
      if u in stored && u in readSeqs then |For(log, u)| == 1 && For(log, u)[0].readSeq == readSeqs[u]
        else For(log, u) == []
  }

  lemma StoresOneMore(log: seq<Stored>, readSeqs: map<UID, nat>, stored: set<UID>, e: Stored)
    requires StoresSome(log, readSeqs, stored) && e.uid !in stored && e.uid in readSeqs && e.readSeq == readSeqs[e.uid]
    ensures StoresSome(log + [e], readSeqs, stored + {e.uid})
  {
    assert (log + [e])[..|log|] == log;
  }

  lemma StoresAll(log: seq<Stored>, readSeqs: map<UID, nat>)
    ensures StoresSome(log, readSeqs, readSeqs.Keys) <==> StoresExactly(log, readSeqs)
    ensures StoresSome([], readSeqs, {}) && StoresExactly([], map[])
  {
  }

  lemma StoresBoth(a: seq<Stored>, x: map<UID, nat>, b: seq<Stored>, y: map<UID, nat>)
    requires StoresExactly(a, x) && StoresExactly(b, y) && x.Keys !! y.Keys
    ensures StoresExactly(a + b, x + y)
  {
    forall u: UID ensures if u in x + y then |For(a + b, u)| == 1 && For(a + b,
      u)[0].readSeq == (x + y)[u] else For(a + b, u) == [] {
      ForConcat(a, b, u);
    }
  }

  lemma {:induction false} InFor(log: seq<Stored>, e: Stored)
    requires e in log
    ensures For(log, e.uid) != []
    decreases |log|
  {
    var n := |log| - 1;
    if log[n] != e {
      assert log == log[..n] + [log[n]];
      InFor(log[..n], e);
    }
  }

  // ---------------------------------------------------------------- the deployment

  /** One push of a group of read sequences to an owner. */
  datatype Push = Push(owner: nat, readSeqs: map<UID, nat>)

  /** Every group of the set was pushed, after what was pushed before. */
  ghost predicate PushedAll(before: seq<Push>, after: seq<Push>, groups: map<nat, map<UID, nat>>, owners: set<nat>) {
    before <= after && forall o :: o in owners && o in groups ==> Push(o, groups[o]) in after[|before|..]
  }

  lemma PushedAfter(before: seq<Push>, after: seq<Push>, groups: map<nat, map<UID, nat>>)
    requires PushedAll(before, after, groups, groups.Keys)
    ensures before <= after
  {
  }

  lemma PushedNone(pushes: seq<Push>, groups: map<nat, map<UID, nat>>)
    ensures PushedAll(pushes, pushes, groups, {})
  {
  }

  lemma PushedOneMore(before: seq<Push>, mid: seq<Push>, after: seq<Push>, groups: map<nat, map<UID, nat>>,
      owners: set<nat>, owner: nat)
    requires PushedAll(before, mid, groups, owners) && owner in groups && mid + [Push(owner, groups[owner])] <= after
    ensures PushedAll(before, after, groups, owners + {owner})
  {
    forall o | o in owners + {owner} && o in groups ensures Push(o, groups[o]) in after[|before|..] {
      if o in owners {
        assert mid[|before|..] == after[|before|..|mid|];
      } else {
        assert after[|mid|] == Push(o, groups[o]) && after[|before|..][|mid| - |before|] == after[|mid|];
      }
    }
  }

  datatype Reply = Done | Stale | Failed

  /** What happens to one remote call: it is lost, it is served but its reply is lost, or it is answered. */
  datatype Rpc = Lost | ReplyLost | Answered

  /**
   All nodes together. Lookups, store calls and remote calls happen one after another at moments
   counted by `now`; their outcomes are arbitrary functions of the moment. A failing store call
   may have stored any part of what it was given.
   */
  class Deployment {
    const self: nat
    const clustered: bool
    const hasLocal: bool
    const hasRemote: bool
    const isCommand: string -> bool
    const owner: (nat, UID) -> Option<nat>
    const storeFails: nat -> Option<set<UID>>
    const rpc: nat -> Rpc
    var now: nat
    var log: seq<Stored>
    ghost var pushes: seq<Push>

    constructor (self: nat, clustered: bool, hasLocal: bool, hasRemote: bool, isCommand: string -> bool,
                 owner: (nat, UID) -> Option<nat>, storeFails: nat -> Option<set<UID>>, rpc: nat -> Rpc)
      ensures log == [] && now == 0
    {
      this.self, this.clustered, this.hasLocal, this.hasRemote, this.isCommand := self, clustered, hasLocal, hasRemote,
        isCommand;
      this.owner, this.storeFails, this.rpc := owner, storeFails, rpc;
      now, log, pushes := 0, [], [];
    }

    /** The node that a lookup by `node` at a moment names as the owner; without a cluster, itself. */
    function OwnerAt(node: nat, moment: nat, uid: UID): Option<nat> {
      if clustered then owner(moment, uid) else Some(node)
    }

    /** The storing node was the owner of the UID when it was looked up, between two moments. */
    ghost predicate Owned(e: Stored, from: nat, to: nat) {
      from <= e.lookup < to && OwnerAt(e.node, e.lookup, e.uid) == Some(e.node)
    }

    ghost predicate AllOwned(part: seq<Stored>, from: nat, to: nat) {
      forall e :: e in part ==> Owned(e, from, to)
    }

    // -------------------------------------------------------------- what a push may fail from

    /** No call fails at this moment, and every owner is known. */
    ghost predicate Smooth(moment: nat) {
      storeFails(moment).None? && rpc(moment).Answered? && (clustered ==> forall u :: owner(moment, u).Some?)
    }

    /** Between two moments no owner changed. */
    ghost predicate Steady(from: nat, to: nat) {
      forall m, n, u | from <= m < to && from <= n < to && clustered :: owner(m, u) == owner(n, u)
    }

    /** Owners changed, and then changed once more. */
    ghost predicate ChangedTwice(from: nat, to: nat) {
      exists mid | from <= mid <= to :: !Steady(from, mid) && !Steady(mid, to)
    }

    /** A handler is missing, or some call failed. */
    ghost predicate Broken(from: nat, to: nat) {
      !hasLocal || !hasRemote || exists m | from <= m < to :: !Smooth(m)
    }

    lemma Longer(from: nat, to: nat, earlier: nat, later: nat)
      requires earlier <= from && to <= later
      ensures Broken(from, to) ==> Broken(earlier, later)
      ensures !Steady(from, to) ==> !Steady(earlier, later)
    {
    }

    lemma TwiceLonger(from: nat, to: nat, later: nat)
      requires ChangedTwice(from, to) && to <= later
      ensures ChangedTwice(from, later)
    {
      hide Steady;
      var mid :| from <= mid <= to && !Steady(from, mid) && !Steady(mid, to);
      Longer(mid, to, mid, later);
    }

    lemma ChangedAgain(from: nat, mid: nat, to: nat)
      requires from <= mid <= to && !Steady(from, mid) && !Steady(mid, to)
      ensures ChangedTwice(from, to)
    {
      hide Steady;
    }

    lemma UnknownOwner(node: nat, moment: nat, u: UID, from: nat, to: nat)
      requires from <= moment < to && OwnerAt(node, moment, u).None?
      ensures Broken(from, to)
    {
      assert !Smooth(moment);
    }

    lemma BrokenNow(from: nat, moment: nat, to: nat)
      requires from <= moment < to && (storeFails(moment).Some? || !rpc(moment).Answered?)
      ensures Broken(from, to)
    {
      assert !Smooth(moment);
    }

    lemma NoHandler(from: nat, to: nat)
      requires !hasLocal || !hasRemote
      ensures Broken(from, to)
    {
    }

    /** A lookup between two moments named somebody else as the owner of one of the UIDs. */
    ghost predicate Disowned(node: nat, readSeqs: map<UID, nat>, from: nat, to: nat) {
      exists m, u | from <= m < to && u in readSeqs :: OwnerAt(node, m, u) != Some(node)
    }

    lemma DisownedAt(node: nat, readSeqs: map<UID, nat>, moment: nat, u: UID, from: nat, to: nat)
      requires from <= moment < to && u in readSeqs && OwnerAt(node, moment, u) != Some(node)
      ensures Disowned(node, readSeqs, from, to)
    {
      hide OwnerAt;
    }

    lemma DisownedLonger(node: nat, readSeqs: map<UID, nat>, from: nat, to: nat, earlier: nat)
      requires Disowned(node, readSeqs, from, to) && earlier <= from
      ensures Disowned(node, readSeqs, earlier, to)
    {
      hide OwnerAt;
    }

    /** A node that was the owner of every UID and then not of all: some owner changed. */
    lemma DisownedIsChange(node: nat, readSeqs: map<UID, nat>, lookups: map<UID, nat>, from: nat, sent: nat, to: nat)
      requires Resolved(node, readSeqs, lookups, from, sent) && from <= sent <= to
      requires Disowned(node, readSeqs, sent, to)
      ensures !Steady(from, to)
    {
      var m, u :| sent <= m < to && u in readSeqs && OwnerAt(node, m, u) != Some(node);
      assert OwnerAt(node, lookups[u], u) == Some(node);
      assert owner(lookups[u], u) != owner(m, u);
    }

    method OwnerNode(node: nat, uid: UID) returns (r: Option<nat>)
      modifies this`now
      ensures now == old(now) + 1 && r == OwnerAt(node, old(now), uid)
    {
      r := if clustered then owner(now, uid) else Some(node);
      now := now + 1;
    }

    /** The evidence that every UID of the map was looked up and the node was its owner. */
    ghost predicate Resolved(node: nat, readSeqs: map<UID, nat>, lookups: map<UID, nat>, from: nat, to: nat) {
      forall u ::
        u in readSeqs ==> u in lookups && from <= lookups[u] < to && OwnerAt(node, lookups[u], u) == Some(node)
    }

    /** Stores read sequences on a node. */
    method Store(node: nat, readSeqs: map<UID, nat>, lookups: map<UID, nat>, ghost from: nat) returns (r: Reply,
        ghost part: seq<Stored>)
      requires Resolved(node, readSeqs, lookups, from, now)
      modifies this`now, this`log
      ensures now == old(now) + 1 && log == old(log) + part
      ensures r == (if storeFails(old(now)).None? then Done else Failed)
      ensures r == Done ==> StoresExactly(part, readSeqs) && AllOwned(part, from, now)
    {
      hide *;
      var failure := storeFails(now);
      now := now + 1;
      part := [];
      var left := if failure.None? then readSeqs.Keys else failure.value * readSeqs.Keys;
      ghost var all := left;
      StoresAll([], readSeqs);
      NothingStored(node, readSeqs, lookups, from, old(now));
      assert all - left == {};
      while left != {}
        invariant now == old(now) + 1 && log == old(log) + part && left <= all && all <= readSeqs.Keys
        invariant StoresSome(part, readSeqs, all - left) && StoredBy(part, node, lookups)
        decreases left
      {
        var u :| u in left;
        var e := Stored(node, u, readSeqs[u], lookups[u]);
        StoresOneMore(part, readSeqs, all - left, e);
        StoredByMore(part, node, lookups, e);
        assert old(log) + (part + [e]) == old(log) + part + [e];
        assert all - (left - {u}) == (all - left) + {u};
        log, part, left := log + [e], part + [e], left - {u};
      }
      if failure.Some? {
        return Failed, part;
      }
      assert all - left == readSeqs.Keys;
      StoresAll(part, readSeqs);
      StoredIsOwned(part, node, readSeqs, lookups, from, old(now));
      return Done, part;
    }

    /** The entries carry the node and the looked-up moments. */
    ghost predicate StoredBy(part: seq<Stored>, node: nat, lookups: map<UID, nat>) {
      forall e :: e in part ==> e.node == node && e.uid in lookups && e.lookup == lookups[e.uid]
    }

    lemma NothingStored(node: nat, readSeqs: map<UID, nat>, lookups: map<UID, nat>, from: nat, to: nat)
      requires Resolved(node, readSeqs, lookups, from, to)
      ensures StoredBy([], node, lookups) && readSeqs.Keys <= lookups.Keys
    {
    }

    lemma StoredByMore(part: seq<Stored>, node: nat, lookups: map<UID, nat>, e: Stored)
      requires StoredBy(part, node, lookups) && e.node == node && e.uid in lookups && e.lookup == lookups[e.uid]
      ensures StoredBy(part + [e], node, lookups)
    {
    }

    lemma StoredIsOwned(part: seq<Stored>, node: nat, readSeqs: map<UID, nat>, lookups: map<UID, nat>, from: nat,
        to: nat)
      requires StoredBy(part, node, lookups) && StoresExactly(part, readSeqs)
        && Resolved(node, readSeqs, lookups, from, to)
      ensures AllOwned(part, from, to + 1)
    {
      forall e | e in part ensures Owned(e, from, to + 1) {
        InFor(part, e);
      }
    }

    /** The sink behind the node RPC: it stores nothing unless every UID validates as owned by this node. */
    method SinkPush(node: nat, intent: Intent) returns (r: Reply, ghost part: seq<Stored>)
      requires IsNormal(isCommand, intent) && forall v :: v in intent.readSeqs ==> TrimSpace(v) == v
      modifies this`now, this`log
      ensures old(now) <= now && log == old(log) + part
      ensures r == Stale ==> part == []
      ensures r == Done ==> StoresExactly(part, intent.readSeqs) && AllOwned(part, old(now), now)
      ensures r == Failed ==> Broken(old(now), now)
      ensures r == Stale ==> Disowned(node, intent.readSeqs, old(now), now)
    {
      hide *;
      part := [];
      var normalized := Normalize(isCommand, intent);
      NormalIsFixed(intent, normalized);
      var readSeqs := normalized.value.readSeqs;
      ghost var start := now;
      var lookups: map<UID, nat> := map[];
      NothingResolved(node, start);
      var left := readSeqs.Keys;
      while left != {}
        invariant left <= readSeqs.Keys && start <= now && log == old(log)
        invariant lookups.Keys == readSeqs.Keys - left && Resolved(node, lookups, lookups, start, now)
        decreases left
      {
        var u :| u in left;
        var moment := now;
        var at := OwnerNode(node, u);
        if at.None? {
          UnknownOwner(node, moment, u, start, now);
          return Failed, [];
        }
        if at.value != node {
          DisownedAt(node, intent.readSeqs, moment, u, start, now);
          return Stale, [];
        }
        OneMoreResolved(node, lookups, start, moment, u);
        left, lookups := left - {u}, lookups[u := moment];
      }
      ResolvedAll(node, readSeqs, lookups, start, now);
      ghost var moment := now;
      r, part := Store(node, readSeqs, lookups, start);
      if r == Failed {
        BrokenNow(start, moment, now);
      }
    }

    lemma NormalIsFixed(intent: Intent, normalized: Option<Intent>)
      requires IsNormal(isCommand, intent)
      requires normalized.Some? <==> Acceptable(isCommand, intent)
      requires normalized.Some? ==> IsMaximum(intent.readSeqs, normalized.value.readSeqs)
      ensures normalized.Some? && normalized.value.readSeqs == intent.readSeqs
    {
      hide Acceptable, IsMaximum;
      MaximumIsUnique(intent.readSeqs, intent.readSeqs, normalized.value.readSeqs);
    }

    lemma NothingResolved(node: nat, moment: nat)
      ensures Resolved(node, map[], map[], moment, moment)
    {
    }

    lemma OneMoreResolved(node: nat, lookups: map<UID, nat>, from: nat, moment: nat, u: UID)
      requires from <= moment && Resolved(node, lookups, lookups, from, moment)
        && OwnerAt(node, moment, u) == Some(node)
      ensures Resolved(node, lookups[u := moment], lookups[u := moment], from, moment + 1)
    {
      hide OwnerAt;
    }

    lemma ResolvedAll(node: nat, readSeqs: map<UID, nat>, lookups: map<UID, nat>, from: nat, to: nat)
      requires Resolved(node, lookups, lookups, from, to) && lookups.Keys == readSeqs.Keys
      ensures Resolved(node, readSeqs, lookups, from, to)
    {
    }

    /** One remote call to a node's sink. */
    method RemotePush(node: nat, intent: Intent) returns (r: Reply, ghost part: seq<Stored>)
      requires IsNormal(isCommand, intent) && forall v :: v in intent.readSeqs ==> TrimSpace(v) == v
      modifies this`now, this`log
      ensures old(now) <= now && log == old(log) + part
      ensures r == Stale ==> part == []
      ensures r == Done ==> StoresExactly(part, intent.readSeqs) && AllOwned(part, old(now), now)
      ensures r == Failed ==> Broken(old(now), now)
      ensures r == Stale ==> Disowned(node, intent.readSeqs, old(now), now)
    {
      hide *;
      var outcome := rpc(now);
      now := now + 1;
      if outcome == Lost {
        BrokenNow(old(now), old(now), now);
        return Failed, [];
      }
      ghost var served := now;
      r, part := SinkPush(node, intent);
      match r {
        case Done => OwnedLonger(part, served, now, old(now));
        case Stale => DisownedLonger(node, intent.readSeqs, served, now, old(now));
        case Failed => Longer(served, now, old(now), now);
      }
      if outcome == ReplyLost {
        BrokenNow(old(now), old(now), now);
        r := Failed;
      }
    }

    lemma OwnedLonger(part: seq<Stored>, from: nat, to: nat, earlier: nat)
      requires AllOwned(part, from, to) && earlier <= from
      ensures AllOwned(part, earlier, to)
    {
    }

    // -------------------------------------------------------------- the router on this node

    /** Groups cut the read sequences by owner; the lookups show who the owner of each UID was. */
    ghost predicate Partition(groups: map<nat, map<UID, nat>>, readSeqs: map<UID, nat>, lookups: map<UID, nat>,
        from: nat, to: nat) {
      && (forall o, u :: o in groups && u in groups[o] ==> u in readSeqs && groups[o][u] == readSeqs[u])
      && (forall o, u :: o in groups && u in groups[o] ==>
            u in lookups && OwnerIn(lookups, u) == Some(o) && from <= lookups[u] < to)
      && (forall u :: u in readSeqs ==> var o := OwnerIn(lookups, u);
        o.Some? && o.value in groups && u in groups[o.value])
      && (forall o :: o in groups ==> groups[o] != map[])
    }

    /** The owner that the UID's lookup named. */
    function OwnerIn(lookups: map<UID, nat>, uid: UID): Option<nat> {
      if uid in lookups then OwnerAt(self, lookups[uid], uid) else None
    }

    /** Looks up the owner of every UID, one after another. */
    method GroupByOwner(readSeqs: map<UID, nat>) returns (groups: Option<map<nat, map<UID, nat>>>,
        lookups: map<UID, nat>)
      modifies this`now
      ensures old(now) <= now
      ensures groups.Some? ==> Partition(groups.value, readSeqs, lookups, old(now), now)
      ensures groups.None? ==> Broken(old(now), now)
    {
      hide *;
      var byOwner: map<nat, map<UID, nat>> := map[];
      lookups := map[];
      var left := readSeqs.Keys;
      ghost var done: map<UID, nat> := map[];
      NothingGrouped(now);
      while left != {}
        invariant left <= readSeqs.Keys && old(now) <= now
        invariant done.Keys == readSeqs.Keys - left && forall u :: u in done ==> done[u] == readSeqs[u]
        invariant Partition(byOwner, done, lookups, old(now), now)
        decreases left
      {
        var u :| u in left;
        var moment := now;
        var at := OwnerNode(self, u);
        if at.None? {
          UnknownOwner(self, moment, u, old(now), now);
          return None, lookups;
        }
        var o := at.value;
        OneMoreGrouped(byOwner, done, lookups, old(now), moment, u, readSeqs[u], o);
        byOwner := Joined(byOwner, o, u, readSeqs[u]);
        left, lookups, done := left - {u}, lookups[u := moment], done[u := readSeqs[u]];
      }
      assert done == readSeqs;
      return Some(byOwner), lookups;
    }

    lemma NothingGrouped(moment: nat)
      ensures Partition(map[], map[], map[], moment, moment)
    {
    }

    lemma OneMoreLookup(lookups: map<UID, nat>, moment: nat, u: UID, v: UID)
      ensures OwnerIn(lookups[u := moment], v) == if v == u then OwnerAt(self, moment, u) else OwnerIn(lookups, v)
    {
    }

    function Joined(groups: map<nat, map<UID, nat>>, o: nat, u: UID, readSeq: nat): map<nat, map<UID, nat>> {
      groups[o := (if o in groups then groups[o] else map[])[u := readSeq]]
    }

    lemma JoinedEntries(groups: map<nat, map<UID, nat>>, o: nat, u: UID, readSeq: nat, p: nat, v: UID)
      ensures var after := Joined(groups, o, u, readSeq);
        && (p in after && v in after[p] <==> (p == o && v == u) || (p in groups && v in groups[p]))
        && (p in after && v in after[p] ==> after[p][v] == if p == o && v == u then readSeq else groups[p][v])
        && (p in after ==> (p in groups ==> groups[p] != map[]) ==> after[p] != map[])
    {
      assert u in Joined(groups, o, u, readSeq)[o];
    }

    /** An entry after one more UID was grouped belongs to that UID, or was there before. */
    lemma OneMoreEntry(groups: map<nat, map<UID, nat>>, readSeqs: map<UID, nat>, lookups: map<UID, nat>, from: nat,
        moment: nat, u: UID, readSeq: nat, o: nat, p: nat, v: UID)
      requires Partition(groups, readSeqs, lookups, from, moment) && u !in readSeqs && from <= moment
      requires OwnerAt(self, moment, u) == Some(o)
      requires var after := Joined(groups, o, u, readSeq); p in after && v in after[p]
      ensures var after := Joined(groups, o, u, readSeq);
        v in readSeqs[u := readSeq] && after[p][v] == readSeqs[u := readSeq][v]
      ensures v in lookups[u := moment] && OwnerIn(lookups[u := moment], v) == Some(p)
      ensures from <= lookups[u := moment][v] < moment + 1
    {
      hide OwnerIn, OwnerAt, Joined;
      OneMoreLookup(lookups, moment, u, v);
      JoinedEntries(groups, o, u, readSeq, p, v);
    }

    /** Every UID is in the group of its owner, also after one more was grouped. */
    lemma OneMoreOwner(groups: map<nat, map<UID, nat>>, readSeqs: map<UID, nat>, lookups: map<UID, nat>, from: nat,
        moment: nat, u: UID, readSeq: nat, o: nat, v: UID)
      requires Partition(groups, readSeqs, lookups, from, moment) && OwnerAt(self, moment, u) == Some(o)
      requires v in readSeqs || v == u
      ensures var after, p := Joined(groups, o, u, readSeq), OwnerIn(lookups[u := moment], v);
        p.Some? && p.value in after && v in after[p.value]
    {
      hide OwnerIn, OwnerAt, Joined;
      OneMoreLookup(lookups, moment, u, v);
      JoinedEntries(groups, o, u, readSeq, if v == u then o else OwnerIn(lookups, v).value, v);
    }

    lemma OneMoreGroup(groups: map<nat, map<UID, nat>>, readSeqs: map<UID, nat>, lookups: map<UID, nat>, from: nat,
        moment: nat, u: UID, readSeq: nat, o: nat, p: nat)
      requires Partition(groups, readSeqs, lookups, from, moment) && p in Joined(groups, o, u, readSeq)
      ensures Joined(groups, o, u, readSeq)[p] != map[]
    {
      hide OwnerIn, OwnerAt, Joined;
      JoinedEntries(groups, o, u, readSeq, p, u);
    }

    lemma OneMoreGrouped(groups: map<nat, map<UID, nat>>, readSeqs: map<UID, nat>, lookups: map<UID, nat>,
        from: nat, moment: nat, u: UID, readSeq: nat, o: nat)
      requires Partition(groups, readSeqs, lookups, from, moment) && u !in readSeqs && from <= moment
      requires OwnerAt(self, moment, u) == Some(o)
      ensures Partition(Joined(groups, o, u, readSeq), readSeqs[u := readSeq], lookups[u := moment], from, moment + 1)
    {
      hide *;
      var after, total, lookups' := Joined(groups, o, u, readSeq), readSeqs[u := readSeq], lookups[u := moment];
      forall p, v | p in after && v in after[p]
        ensures v in total && after[p][v] == total[v]
        ensures v in lookups' && OwnerIn(lookups', v) == Some(p) && from <= lookups'[v] < moment + 1
      {
        OneMoreEntry(groups, readSeqs, lookups, from, moment, u, readSeq, o, p, v);
      }
      forall v | v in total ensures var p := OwnerIn(lookups', v); p.Some? && p.value in after && v in after[p.value] {
        OneMoreOwner(groups, readSeqs, lookups, from, moment, u, readSeq, o, v);
      }
      forall p | p in after ensures after[p] != map[] {
        OneMoreGroup(groups, readSeqs, lookups, from, moment, u, readSeq, o, p);
      }
      IsPartition(after, total, lookups', from, moment + 1);
    }

    lemma IsPartition(groups: map<nat, map<UID, nat>>, readSeqs: map<UID, nat>, lookups: map<UID, nat>, from: nat,
        to: nat)
      requires forall o, u :: o in groups && u in groups[o] ==> u in readSeqs && groups[o][u] == readSeqs[u]
      requires forall o, u :: o in groups && u in groups[o] ==>
        u in lookups && OwnerIn(lookups, u) == Some(o) && from <= lookups[u] < to
      requires forall u :: u in readSeqs ==>
        var o := OwnerIn(lookups, u); o.Some? && o.value in groups && u in groups[o.value]
      requires forall o :: o in groups ==> groups[o] != map[]
      ensures Partition(groups, readSeqs, lookups, from, to)
    {
    }

    /** Pushes one group to its owner: to the local store here, to the sink's RPC elsewhere. */
    method PushGroup(owner: nat, intent: Intent, lookups: map<UID, nat>, ghost from: nat) returns (r: Reply,
        ghost part: seq<Stored>)
      requires IsNormal(isCommand, intent) && forall v :: v in intent.readSeqs ==> TrimSpace(v) == v
      requires Resolved(owner, intent.readSeqs, lookups, from, now) && from <= now && (!clustered ==> owner == self)
      modifies this
      ensures old(now) <= now && log == old(log) + part
      ensures r == Stale ==> part == [] && owner != self
      ensures r == Done ==> StoresExactly(part, intent.readSeqs) && AllOwned(part, from, now)
      ensures pushes == old(pushes) + [Push(owner, intent.readSeqs)]
      ensures r == Failed ==> Broken(from, now)
      ensures r == Stale ==> !Steady(from, now)
    {
      hide *;
      part, pushes := [], pushes + [Push(owner, intent.readSeqs)];
      if owner == self || !clustered {
        if !hasLocal {
          NoHandler(from, now);
          return Failed, [];
        }
        r, part := Store(owner, intent.readSeqs, lookups, from);
        if r == Failed {
          BrokenNow(from, old(now), now);
        }
        return;
      }
      if !hasRemote {
        NoHandler(from, now);
        return Failed, [];
      }
      ghost var sent := now;
      r, part := RemotePush(owner, intent);
      match r {
        case Done => OwnedLonger(part, sent, now, from);
        case Stale => DisownedIsChange(owner, intent.readSeqs, lookups, from, sent, now);
        case Failed => Longer(sent, now, from, now);
      }
    }

    lemma GroupIsResolved(groups: map<nat, map<UID, nat>>, readSeqs: map<UID, nat>, lookups: map<UID, nat>,
        from: nat, to: nat, later: nat, o: nat)
      requires Partition(groups, readSeqs, lookups, from, to) && o in groups && to <= later
      ensures Resolved(o, groups[o], lookups, from, later) && (!clustered ==> o == self)
      ensures groups[o] != map[] && forall u :: u in groups[o] ==> u in readSeqs && groups[o][u] == readSeqs[u]
    {
      var u :| u in groups[o];
    }

    /** The read sequences of the groups that are not left. */
    ghost function Together(readSeqs: map<UID, nat>, lookups: map<UID, nat>, left: set<nat>): map<UID, nat> {
      map u | u in readSeqs && OwnerIn(lookups, u).Some? && OwnerIn(lookups, u).value !in left :: readSeqs[u]
    }

    lemma TogetherMore(groups: map<nat, map<UID, nat>>, readSeqs: map<UID, nat>, lookups: map<UID, nat>, from: nat,
        to: nat, left: set<nat>, o: nat)
      requires Partition(groups, readSeqs, lookups, from, to) && o in left && o in groups
      ensures Together(readSeqs, lookups, left).Keys !! groups[o].Keys
      ensures Together(readSeqs, lookups, left - {o}) == Together(readSeqs, lookups, left) + groups[o]
    {
      InItsGroup(groups, readSeqs, lookups, from, to, o);
      hide OwnerIn, Partition;
      var before, after := Together(readSeqs, lookups, left), Together(readSeqs, lookups, left - {o});
      assert after.Keys == before.Keys + groups[o].Keys;
    }

    lemma InItsGroup(groups: map<nat, map<UID, nat>>, readSeqs: map<UID, nat>, lookups: map<UID, nat>, from: nat,
        to: nat, o: nat)
      requires Partition(groups, readSeqs, lookups, from, to) && o in groups
      ensures forall u :: u in groups[o] <==> u in readSeqs && OwnerIn(lookups, u) == Some(o)
      ensures forall u :: u in groups[o] ==> groups[o][u] == readSeqs[u]
    {
      hide OwnerIn;
    }

    lemma TogetherAll(groups: map<nat, map<UID, nat>>, readSeqs: map<UID, nat>, lookups: map<UID, nat>, from: nat,
        to: nat)
      requires Partition(groups, readSeqs, lookups, from, to)
      ensures Together(readSeqs, lookups, {}) == readSeqs && Together(readSeqs, lookups, groups.Keys) == map[]
    {
      hide OwnerIn;
    }

    /** Pushes one group; when its remote owner was stale and `retry` is set, it is looked up and pushed once more. */
    method PushOrRetry(base: Intent, group: map<UID, nat>, owner: nat, lookups: map<UID, nat>, ghost from: nat,
        retry: bool) returns (done: bool, ghost part: seq<Stored>)
      requires IsNormal(isCommand, base) && (forall v :: v in base.readSeqs ==> TrimSpace(v) == v)
      requires IsNormal(isCommand, base.(readSeqs := group)) && (forall v :: v in group ==> TrimSpace(v) == v)
      requires forall u :: u in group ==> u in base.readSeqs && group[u] == base.readSeqs[u]
      requires Resolved(owner, group, lookups, from, now) && from <= now && (!clustered ==> owner == self)
      modifies this
      ensures old(now) <= now && log == old(log) + part
      ensures done ==> StoresExactly(part, group) && AllOwned(part, from, now)
      ensures old(pushes) + [Push(owner, group)] <= pushes
      ensures done || Broken(from, now) || if retry then ChangedTwice(from, now) else !Steady(from, now)
      decreases retry, 0
    {
      hide *;
      var reply;
      reply, part := PushGroup(owner, base.(readSeqs := group), lookups, from);
      if reply == Stale && retry {
        ghost var retried := now;
        done, part := RetryGroup(base, group);
        if done {
          OwnedLonger(part, retried, now, from);
        } else if Broken(retried, now) {
          Longer(retried, now, from, now);
        } else {
          ChangedAgain(from, retried, now);
        }
      } else {
        done := reply == Done;
      }
    }

    /** Pushes every group; all of them are tried, also after one has failed. */
    method PushGroups(base: Intent, readSeqs: map<UID, nat>, groups: map<nat, map<UID, nat>>,
        lookups: map<UID, nat>, ghost from: nat, retry: bool)
        returns (ok: bool, ghost part: seq<Stored>)
      requires IsNormal(isCommand, base) && (forall v :: v in base.readSeqs ==> TrimSpace(v) == v)
      requires forall u :: u in readSeqs ==> u in base.readSeqs && readSeqs[u] == base.readSeqs[u]
      requires Partition(groups, readSeqs, lookups, from, now) && from <= now
      modifies this
      ensures old(now) <= now && log == old(log) + part
      ensures ok ==> StoresExactly(part, readSeqs) && AllOwned(part, from, now)
      ensures PushedAll(old(pushes), pushes, groups, groups.Keys)
      ensures ok || Broken(from, now) || if retry then ChangedTwice(from, now) else !Steady(from, now)
      decreases retry, 1
    {
      hide *;
      ok, part := true, [];
      var left := groups.Keys;
      TogetherAll(groups, readSeqs, lookups, from, now);
      StoresAll([], readSeqs);
      NothingOwned(from, now);
      PushedNone(pushes, groups);
      assert groups.Keys - left == {};
      while left != {}
        invariant left <= groups.Keys && old(now) <= now && log == old(log) + part
        invariant ok ==> StoresExactly(part, Together(readSeqs, lookups, left)) && AllOwned(part, from, now)
        invariant PushedAll(old(pushes), pushes, groups, groups.Keys - left)
        invariant ok || Broken(from, now) || if retry then ChangedTwice(from, now) else !Steady(from, now)
        decreases left
      {
        var o :| o in left;
        ghost var before, mid, earlier := part, now, pushes;
        GroupIsResolved(groups, readSeqs, lookups, from, old(now), now, o);
        PartIsNormal(isCommand, base, groups[o]);
        var done;
        ghost var one;
        done, one := PushOrRetry(base, groups[o], o, lookups, from, retry);
        PushedOneMore(old(pushes), earlier, pushes, groups, groups.Keys - left, o);
        assert groups.Keys - (left - {o}) == groups.Keys - left + {o};
        StillExcused(from, mid, now, retry);
        Regroup(old(log), before, one);
        part := before + one;
        if !done {
          ok := false;
        } else if ok {
          TogetherMore(groups, readSeqs, lookups, from, old(now), left, o);
          StoresBoth(before, Together(readSeqs, lookups, left), one, groups[o]);
          OwnedTogether(before, one, from, mid, now);
        }
        left := left - {o};
      }
      TogetherAll(groups, readSeqs, lookups, from, old(now));
      assert groups.Keys - left == groups.Keys;
    }

    /** Looks up the owners of a stale group again and pushes the parts, without a further retry. */
    method RetryGroup(base: Intent, readSeqs: map<UID, nat>) returns (ok: bool, ghost part: seq<Stored>)
      requires IsNormal(isCommand, base) && (forall v :: v in base.readSeqs ==> TrimSpace(v) == v)
      requires forall u :: u in readSeqs ==> u in base.readSeqs && readSeqs[u] == base.readSeqs[u]
      modifies this
      ensures old(now) <= now && log == old(log) + part
      ensures ok ==> StoresExactly(part, readSeqs) && AllOwned(part, old(now), now)
      ensures old(pushes) <= pushes
      ensures ok || Broken(old(now), now) || !Steady(old(now), now)
      decreases false, 2
    {
      hide *;
      var groups, lookups := GroupByOwner(readSeqs);
      if groups.None? {
        return false, [];
      }
      ghost var earlier := pushes;
      ok, part := PushGroups(base, readSeqs, groups.value, lookups, old(now), false);
      PushedAfter(earlier, pushes, groups.value);
    }

    lemma StillExcused(from: nat, mid: nat, to: nat, retry: bool)
      requires mid <= to
      ensures Broken(from, mid) ==> Broken(from, to)
      ensures (if retry then ChangedTwice(from, mid) else !Steady(from, mid)) ==>
        if retry then ChangedTwice(from, to) else !Steady(from, to)
    {
      hide *;
      Longer(from, mid, from, to);
      if ChangedTwice(from, mid) {
        TwiceLonger(from, mid, to);
      }
    }

    lemma EveryUIDPushed(groups: map<nat, map<UID, nat>>, readSeqs: map<UID, nat>, lookups: map<UID, nat>,
        from: nat, to: nat, before: seq<Push>, after: seq<Push>)
      requires Partition(groups, readSeqs, lookups, from, to) && PushedAll(before, after, groups, groups.Keys)
      requires readSeqs != map[]
      ensures before < after && forall u :: u in readSeqs ==>
        exists push :: push in after[|before|..] && u in push.readSeqs && push.readSeqs[u] == readSeqs[u]
    {
      hide OwnerIn;
      forall u | u in readSeqs
        ensures exists push :: push in after[|before|..] && u in push.readSeqs && push.readSeqs[u] == readSeqs[u]
      {
        var o := OwnerIn(lookups, u).value;
        assert Push(o, groups[o]) in after[|before|..];
      }
      var u :| u in readSeqs;
    }

    lemma NothingOwned(from: nat, to: nat)
      ensures AllOwned([], from, to)
    {
    }

    lemma OwnedTogether(a: seq<Stored>, b: seq<Stored>, from: nat, mid: nat, to: nat)
      requires AllOwned(a, from, mid) && AllOwned(b, from, to) && mid <= to
      ensures AllOwned(a + b, from, to)
    {
    }

    /**
     Routes an intent. When it reports full acceptance, every normalized UID's read sequence was
     stored exactly once and unchanged, nothing else was stored, and each at a node that a lookup
     during the push named as the UID's owner, even when owners changed in between. An acceptable
     intent is refused only when a handler is missing, a call failed, or owners changed twice.
     */
    method PushIntent(intent: Intent) returns (accepted: bool, ghost normal: map<UID, nat>, ghost part: seq<Stored>)
      modifies this
      ensures log == old(log) + part
      ensures !Acceptable(isCommand, intent) ==> !accepted && part == []
      ensures accepted ==> IsMaximum(intent.readSeqs, normal)
      ensures accepted ==> StoresExactly(part, normal) && AllOwned(part, old(now), now)
      // Either some owner is unknown and nothing is pushed, or every UID is, whatever becomes of the others.
      ensures pushes == old(pushes) ==> !Acceptable(isCommand, intent) || Broken(old(now), now)
      ensures old(pushes) < pushes ==> IsMaximum(intent.readSeqs, normal) && forall u :: u in normal ==>
        exists push :: push in pushes[|old(pushes)|..] && u in push.readSeqs && push.readSeqs[u] == normal[u]
      ensures old(pushes) <= pushes
      ensures Acceptable(isCommand, intent) ==> accepted || Broken(old(now), now) || ChangedTwice(old(now), now)
    {
      hide *;
      normal, part := map[], [];
      var normalized := Normalize(isCommand, intent);
      if normalized.None? {
        return false, normal, [];
      }
      var base := normalized.value;
      normal := base.readSeqs;
      NormalAgain(isCommand, intent, base);
      var groups, lookups := GroupByOwner(base.readSeqs);
      if groups.None? {
        return false, normal, [];
      }
      ghost var from, mid := old(now), now;
      accepted, part := PushGroups(base, base.readSeqs, groups.value, lookups, from, true);
      EveryUIDPushed(groups.value, base.readSeqs, lookups, from, mid, old(pushes), pushes);
    }
  }
}
