/**
 Acknowledgement and session-close routing (internal/app/deliveryrouting.go:2026-2113) over
 the acknowledgement index (internal/runtime/delivery/ackindex.go).
 */
module AckRouting {
  import opened Options
  import opened Routes

  datatype Key = Key(uid: UID, session: nat, message: nat)

  datatype Binding = Binding(key: Key, owner: nat)

  /** The keys of one session, with the common case of a single key held without a set. */
  datatype SessionKeys = Empty | Single(key: Key) | Many(keys: set<Key>)
  {
    function All(): set<Key> {
      match this
      case Empty => {}
      case Single(key) => {key}
      case Many(keys) => keys
    }

    /** At least two keys are held as a set, never fewer. */
    predicate Canonical() {
      Many? ==> |keys| >= 2
    }
  }

  lemma {:induction false} TwoKeys(a: Key, b: Key)
    requires a != b
    ensures |{a, b}| == 2
  {
    assert {a, b} == {a} + {b};
  }

  function Add(s: SessionKeys, key: Key): (r: SessionKeys)
    requires s.Canonical()
    ensures r.Canonical() && r.All() == s.All() + {key}
  {
    match s
    case Empty => Single(key)
    case Single(k) => if k == key then s else TwoKeys(k, key); Many({k, key})
    case Many(keys) => assert key in keys ==> keys + {key} == keys; Many(keys + {key})
  }

  /** Removing a key leaves the set form as soon as a single key remains. */
  method Remove(s: SessionKeys, key: Key) returns (r: SessionKeys)
    requires s.Canonical()
    ensures r.Canonical() && r.All() == s.All() - {key}
  {
    match s
    case Empty => r := s;
    case Single(k) => r := if k == key then Empty else s;
    case Many(keys) =>
      var left := keys - {key};
      if |left| == 1 {
        var k :| k in left;
        assert left == {k} by {
          OnlyOne(left, k);
        }
        r := Single(k);
      } else {
        assert |left| >= 1 by {
          assert |left| >= |keys| - 1;
        }
        r := Many(left);
      }
  }

  lemma OnlyOne(s: set<Key>, k: Key)
    requires |s| == 1 && k in s
    ensures s == {k}
  {
    assert |s - {k}| == 0;
  }

  predicate OnSession(key: Key, uid: UID, session: nat) {
    key.uid == uid && key.session == session
  }

  /** Lists exactly the bindings of one UID on one session. */
  ghost predicate OnSessionList(entries: map<Key, Binding>, uid: UID, session: nat, bindings: seq<Binding>) {
    forall b :: b in bindings <==> b.key in entries && entries[b.key] == b && OnSession(b.key, uid, session)
  }

  /** The bindings of each session can be found from the session. */
  class AckIndex {
    var entries: map<Key, Binding>
    var reverse: map<nat, SessionKeys>

    constructor ()
      ensures Valid() && entries == map[]
    {
      entries, reverse := map[], map[];
    }

    /** A session is listed if and only if it has entries, and with exactly the keys of its entries. */
    ghost predicate Valid()
      reads this
    {
      && (forall k :: k in entries ==> entries[k].key == k)
      && (forall s :: s in reverse ==> reverse[s].Canonical() && reverse[s].All() != {})
      && (forall k :: k in entries ==> k.session in reverse && k in reverse[k.session].All())
      && (forall s, k :: s in reverse && k in reverse[s].All() ==> k.session == s && k in entries)
    }

    method Bind(binding: Binding)
      requires Valid()
      modifies this
      ensures Valid() && entries == old(entries)[binding.key := binding]
    {
      var s := binding.key.session;
      entries := entries[binding.key := binding];
      reverse := reverse[s := Add(if s in reverse then reverse[s] else Empty, binding.key)];
    }

    method LookupRoute(key: Key) returns (b: Option<Binding>)
      ensures b == if key in entries then Some(entries[key]) else None
    {
      b := if key in entries then Some(entries[key]) else None;
    }

    /** The bindings of one UID on one session, in any order. */
    method LookupSessionRoute(uid: UID, session: nat) returns (out: seq<Binding>)
      requires Valid()
      ensures Distinct(out) && OnSessionList(entries, uid, session, out)
      ensures forall k :: k in entries ==> entries[k].key == k
    {
      out := [];
      var left := if session in reverse then reverse[session].All() else {};
      ghost var all := left;
      while left != {}
        invariant left <= all && Distinct(out)
        invariant forall b ::
          b in out <==> b.key in all - left && b.key in entries && entries[b.key] == b && b.key.uid == uid
        decreases left
      {
        var key :| key in left;
        left := left - {key};
        if key.uid == uid && key in entries {
          assert forall b :: b in out ==> b.key != key;
          out := out + [entries[key]];
        }
      }
    }

    method RemoveRoute(key: Key)
      requires Valid()
      modifies this
      ensures Valid() && entries == old(entries) - {key}
    {
      if key !in entries {
        return;
      }
      entries := entries - {key};
      var left := Remove(reverse[key.session], key);
      if left.All() == {} {
        reverse := reverse - {key.session};
      } else {
        reverse := reverse[key.session := left];
      }
    }
  }

  /** Which handlers a node has, and which of their calls fail. */
  datatype Peers = Peers(node: nat, hasLocal: bool, hasNotifier: bool, localFails: bool, notifyFails: nat -> bool)

  predicate IsRemote(peers: Peers, owner: nat) {
    owner != 0 && owner != peers.node
  }

  /** The owner of the binding was told: the remote owner by a notification, the local one by its handler. */
  predicate OwnerTold(peers: Peers, owner: nat) {
    if IsRemote(peers, owner) then peers.hasNotifier && !peers.notifyFails(owner)
    else !peers.hasLocal || !peers.localFails
  }

  /**
   Routes one acknowledgement. Its binding goes away if and only if its owner was told, and no
   other binding changes; the call fails exactly when the owner could not be told. Without a
   binding only the local handler is asked.
   */
  method AckRoute(peers: Peers, index: AckIndex?, key: Key) returns (ok: bool)
    requires index != null ==> index.Valid()
    modifies index
    ensures index != null ==> index.Valid()
    ensures index != null && key in old(index.entries) ==> var owner := old(index.entries)[key].owner;
      ok == if owner != 0 && owner != peers.node then peers.hasNotifier && !peers.notifyFails(owner)
            else !peers.hasLocal || !peers.localFails
    ensures index == null || key !in old(index.entries) ==> ok == (!peers.hasLocal || !peers.localFails)
    ensures index != null ==>
      index.entries == if key in old(index.entries) && ok then old(index.entries) - {key} else old(index.entries)
  {
    if index != null {
      var found := index.LookupRoute(key);
      if found.Some? {
        var binding := found.value;
        if IsRemote(peers, binding.owner) {
          if !peers.hasNotifier || peers.notifyFails(binding.owner) {
            return false;
          }
          index.RemoveRoute(binding.key);
          return true;
        }
        if peers.hasLocal && peers.localFails {
          return false;
        }
        index.RemoveRoute(binding.key);
        return true;
      }
    }
    return !peers.hasLocal || !peers.localFails;
  }

  /** Removes the bindings that a list names. */
  method RemoveAll(index: AckIndex, bindings: seq<Binding>)
    requires index.Valid()
    modifies index
    ensures index.Valid() && index.entries == old(index.entries) - KeysOf(bindings)
  {
    assert KeysOf(bindings[..0]) == {};
    hide *;
    for k := 0 to |bindings|
      invariant index.Valid() && index.entries == old(index.entries) - KeysOf(bindings[..k])
    {
      OneMoreKey(bindings, k);
      assert old(index.entries) - KeysOf(bindings[..k]) - {bindings[k].key}
        == old(index.entries) - (KeysOf(bindings[..k]) + {bindings[k].key});
      index.RemoveRoute(bindings[k].key);
    }
    assert bindings[..|bindings|] == bindings;
  }

  lemma OneMoreKey(bindings: seq<Binding>, k: nat)
    requires k < |bindings|
    ensures KeysOf(bindings[..k + 1]) == KeysOf(bindings[..k]) + {bindings[k].key}
  {
    assert bindings[..k + 1] == bindings[..k] + [bindings[k]];
  }

  function KeysOf(bindings: seq<Binding>): set<Key> {
    set b | b in bindings :: b.key
  }

  /** The bindings of a session, cut by owner: the local ones, and those of each remote owner. */
  ghost predicate ByOwner(peers: Peers, bindings: seq<Binding>, local: seq<Binding>, byOwner: map<nat, seq<Binding>>) {
    && (forall b :: b in local <==> b in bindings && !IsRemote(peers, b.owner))
    && (forall o :: o in byOwner ==> IsRemote(peers, o) && byOwner[o] != [])
    && (forall o, b :: o in byOwner && b in byOwner[o] ==> b.owner == o && b in bindings)
    && (forall b :: b in bindings && IsRemote(peers, b.owner) ==> b.owner in byOwner && b in byOwner[b.owner])
  }

  method GroupByOwner(peers: Peers, bindings: seq<Binding>) returns (local: seq<Binding>,
      byOwner: map<nat, seq<Binding>>)
    ensures ByOwner(peers, bindings, local, byOwner)
  {
    local, byOwner := [], map[];
    for k := 0 to |bindings|
      invariant ByOwner(peers, bindings[..k], local, byOwner)
    {
      var b := bindings[k];
      assert bindings[..k + 1] == bindings[..k] + [b];
      if IsRemote(peers, b.owner) {
        var group := if b.owner in byOwner then byOwner[b.owner] else [];
        byOwner := byOwner[b.owner := group + [b]];
        assert b in byOwner[b.owner];
      } else {
        local := local + [b];
      }
    }
    assert bindings[..|bindings|] == bindings;
  }

  /** The keys of the groups whose owners were told, among the owners that were tried. */
  ghost predicate KeysTold(peers: Peers, byOwner: map<nat, seq<Binding>>, tried: set<nat>, removed: set<Key>) {
    forall k ::
      k in removed <==> exists o :: o in tried && o in byOwner && OwnerTold(peers, o) && k in KeysOf(byOwner[o])
  }

  lemma OneMoreOwner(peers: Peers, byOwner: map<nat, seq<Binding>>, tried: set<nat>, removed: set<Key>, owner: nat)
    requires KeysTold(peers, byOwner, tried, removed) && owner in byOwner
    ensures KeysTold(peers, byOwner, tried + {owner},
      if OwnerTold(peers, owner) then removed + KeysOf(byOwner[owner]) else removed)
  {
    hide KeysOf, OwnerTold;
    var after := if OwnerTold(peers, owner) then removed + KeysOf(byOwner[owner]) else removed;
    forall k ensures k in after <==> exists o ::
      o in tried + {owner} && o in byOwner && OwnerTold(peers, o) && k in KeysOf(byOwner[o]) {
      if k in removed {
        var o :| o in tried && o in byOwner && OwnerTold(peers, o) && k in KeysOf(byOwner[o]);
        assert o in tried + {owner};
      }
    }
  }

  /**
   Tells every remote owner once that the session closed, and drops the bindings of each owner
   that was told.
   */
  method NotifyOwners(peers: Peers, index: AckIndex, byOwner: map<nat, seq<Binding>>)
      returns (ok: bool, notified: seq<nat>, ghost removed: set<Key>)
    requires index.Valid() && forall o :: o in byOwner ==> IsRemote(peers, o)
    modifies index
    ensures index.Valid() && index.entries == old(index.entries) - removed
    ensures KeysTold(peers, byOwner, byOwner.Keys, removed)
    ensures ok <==> forall o :: o in byOwner ==> OwnerTold(peers, o)
    ensures Distinct(notified)
    ensures forall o :: o in notified <==> peers.hasNotifier && o in byOwner
  {
    hide *;
    ok, notified, removed := true, [], {};
    var left := byOwner.Keys;
    ghost var tried: set<nat> := {};
    NoOwnerYet(peers, byOwner);
    while left != {}
      invariant left <= byOwner.Keys && tried == byOwner.Keys - left
      invariant index.Valid() && index.entries == old(index.entries) - removed
      invariant KeysTold(peers, byOwner, tried, removed)
      invariant ok <==> forall o :: o in tried ==> OwnerTold(peers, o)
      invariant Distinct(notified) && forall o :: o in notified <==> peers.hasNotifier && o in tried
      decreases left
    {
      var owner :| owner in left;
      OneMoreOwner(peers, byOwner, tried, removed, owner);
      RemoteTold(peers, owner);
      left, tried := left - {owner}, tried + {owner};
      if !peers.hasNotifier {
        ok := false;
        continue;
      }
      OneMoreNotified(notified, owner);
      notified := notified + [owner];
      if peers.notifyFails(owner) {
        ok := false;
        continue;
      }
      RemoveAll(index, byOwner[owner]);
      assert old(index.entries) - removed - KeysOf(byOwner[owner])
        == old(index.entries) - (removed + KeysOf(byOwner[owner]));
      removed := removed + KeysOf(byOwner[owner]);
    }
    assert tried == byOwner.Keys;
  }

  lemma NoOwnerYet(peers: Peers, byOwner: map<nat, seq<Binding>>)
    ensures KeysTold(peers, byOwner, {}, {}) && Distinct<nat>([])
  {
  }

  lemma RemoteTold(peers: Peers, owner: nat)
    requires IsRemote(peers, owner)
    ensures OwnerTold(peers, owner) <==> peers.hasNotifier && !peers.notifyFails(owner)
  {
  }

  lemma OneMoreNotified(notified: seq<nat>, owner: nat)
    requires Distinct(notified) && owner !in notified
    ensures Distinct(notified + [owner])
  {
  }

  /** Every remote owner that has a binding on the session. */
  ghost predicate RemoteOwner(peers: Peers, entries: map<Key, Binding>, uid: UID, session: nat, owner: nat) {
    IsRemote(peers, owner) && exists k :: k in entries && OnSession(k, uid, session) && entries[k].owner == owner
  }

  /** What remains after a session closed: everything but the session's bindings whose owners were told. */
  function Remaining(peers: Peers, entries: map<Key, Binding>, uid: UID, session: nat): map<Key, Binding> {
    map k | k in entries && !(OnSession(k, uid, session) && OwnerTold(peers, entries[k].owner)) :: entries[k]
  }

  /**
   Routes a session close. The bindings that remain are exactly those of other sessions and
   those whose owner failed or could not be reached, for any mix of owners; each remote owner
   is notified exactly once; the call fails exactly when some owner of the session, or the
   local handler, could not be told.
   */
  method SessionClosed(peers: Peers, index: AckIndex?, uid: UID, session: nat) returns (ok: bool, notified: seq<nat>)
    requires index != null ==> index.Valid()
    modifies index
    ensures index != null ==> index.Valid() && index.entries == Remaining(peers, old(index.entries), uid, session)
    ensures Distinct(notified)
    ensures forall o ::
      o in notified <==> index != null && peers.hasNotifier && RemoteOwner(peers, old(index.entries), uid, session, o)
    // Field by field, what goes and what stays, and who is told.
    ensures index != null ==> forall k :: k in old(index.entries) ==>
      var owner := old(index.entries)[k].owner;
      var untold := if owner != 0 && owner != peers.node then !peers.hasNotifier || peers.notifyFails(owner)
                    else peers.hasLocal && peers.localFails;
      (k in index.entries <==> k.uid != uid || k.session != session || untold)
    ensures index != null ==> forall o ::
      var led := exists k ::
        k in old(index.entries) && k.uid == uid && k.session == session && old(index.entries)[k].owner == o;
      (o in notified <==> peers.hasNotifier && o != 0 && o != peers.node && led)
    ensures ok <==> (!peers.hasLocal || !peers.localFails)
                    && (index == null || forall o ::
                      RemoteOwner(peers, old(index.entries), uid, session, o) ==> OwnerTold(peers, o))
  {
    hide *;
    ok, notified := true, [];
    NothingNotified();
    if index == null {
      ok := !peers.hasLocal || !peers.localFails;
      return;
    }
    ghost var before := index.entries;
    RemainingIs(peers, before, uid, session);
    RemoteOwnersAre(peers, before, uid, session);
    var bindings := index.LookupSessionRoute(uid, session);
    var local, byOwner := GroupByOwner(peers, bindings);
    OwnersOfSession(peers, before, uid, session, bindings, local, byOwner);
    ghost var removed;
    ok, notified, removed := NotifyOwners(peers, index, byOwner);
    if peers.hasLocal && peers.localFails {
      ok := false;
      RemainingAfter(peers, before, uid, session, bindings, local, byOwner, removed, removed);
      return;
    }
    RemoveAll(index, local);
    assert before - removed - KeysOf(local) == before - (removed + KeysOf(local));
    RemainingAfter(peers, before, uid, session, bindings, local, byOwner, removed, removed + KeysOf(local));
  }

  lemma RemainingIs(peers: Peers, entries: map<Key, Binding>, uid: UID, session: nat)
    ensures forall k :: k in entries ==> var owner := entries[k].owner;
      var untold := if owner != 0 && owner != peers.node then !peers.hasNotifier || peers.notifyFails(owner)
                    else peers.hasLocal && peers.localFails;
      (k in Remaining(peers, entries, uid, session) <==> k.uid != uid || k.session != session || untold)
  {
  }

  lemma RemoteOwnersAre(peers: Peers, entries: map<Key, Binding>, uid: UID, session: nat)
    ensures forall o ::
      var led := exists k :: k in entries && k.uid == uid && k.session == session && entries[k].owner == o;
      (RemoteOwner(peers, entries, uid, session, o) <==> o != 0 && o != peers.node && led)
  {
  }

  lemma NothingNotified()
    ensures Distinct<nat>([])
  {
  }

  lemma OwnersOfSession(peers: Peers, entries: map<Key, Binding>, uid: UID, session: nat, bindings: seq<Binding>,
      local: seq<Binding>,
                        byOwner: map<nat, seq<Binding>>)
    requires forall k :: k in entries ==> entries[k].key == k
    requires OnSessionList(entries, uid, session, bindings) && ByOwner(peers, bindings, local, byOwner)
    ensures forall o :: o in byOwner <==> RemoteOwner(peers, entries, uid, session, o)
    ensures forall o :: o in byOwner ==> IsRemote(peers, o)
  {
    forall o ensures o in byOwner <==> RemoteOwner(peers, entries, uid, session, o) {
      if o in byOwner {
        var b := byOwner[o][0];
        assert b in byOwner[o];
        assert entries[b.key] == b;
      }
      if RemoteOwner(peers, entries, uid, session, o) {
        var k :| k in entries && OnSession(k, uid, session) && entries[k].owner == o;
        assert entries[k] in bindings;
      }
    }
  }

  lemma RemainingAfter(peers: Peers, entries: map<Key, Binding>, uid: UID, session: nat, bindings: seq<Binding>,
      local: seq<Binding>,
                       byOwner: map<nat, seq<Binding>>, remote: set<Key>, removed: set<Key>)
    requires forall k :: k in entries ==> entries[k].key == k
    requires OnSessionList(entries, uid, session, bindings) && ByOwner(peers, bindings, local, byOwner)
    requires KeysTold(peers, byOwner, byOwner.Keys, remote)
    requires removed == if peers.hasLocal && peers.localFails then remote else remote + KeysOf(local)
    ensures entries - removed == Remaining(peers, entries, uid, session)
  {
    forall k | k in entries
      ensures k in removed <==> OnSession(k, uid, session) && OwnerTold(peers, entries[k].owner)
    {
      var b := entries[k];
      if OnSession(k, uid, session) {
        assert b in bindings;
      }
      assert k in KeysOf(local) <==> b in local;
      if k in remote {
        var o :| o in byOwner && OwnerTold(peers, o) && k in KeysOf(byOwner[o]);
        var c :| c in byOwner[o] && c.key == k;
        assert c == b;
      }
      if OnSession(k, uid, session) && IsRemote(peers, b.owner) && OwnerTold(peers, b.owner) {
        assert b in byOwner[b.owner] && k in KeysOf(byOwner[b.owner]);
      }
    }
  }
}
