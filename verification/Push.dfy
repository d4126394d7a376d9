/**
 The distributed delivery push (internal/app/deliveryrouting.go:1514-2024): local and remote
 routes, one batch of items per node and chunk, partial replies, and the legacy fallback.
 */
module Push {
  import opened Options
  import opened Routes
  import opened Sequences
  import opened Ascending

  type Frame = nat

  /** The committed message. Its frame depends on the recipient only through the channel the recipient sees. */
  datatype Envelope = Envelope(person: bool, senderSession: nat, fromUID: UID, view: UID -> string,
    frames: string -> Option<Frame>)

  datatype PushResult = PushResult(accepted: seq<RouteKey>, retryable: seq<RouteKey>, dropped: seq<RouteKey>)

  /** A peer's reply lists the accepted routes or only counts them. */
  datatype Response = Response(countSet: bool, count: nat, accepted: seq<RouteKey>, retryable: seq<RouteKey>,
    dropped: seq<RouteKey>)

  datatype Item = Item(routes: seq<RouteKey>, frame: Frame)

  /** One call to a peer for some routes, carried by its items, with its reply unless the call failed. */
  datatype Exchange = Exchange(node: nat, legacy: bool, routes: seq<RouteKey>, items: seq<Item>,
    reply: Option<Response>)

  datatype EncodeError = EncodeError

  /** The most routes that one call carries, except for person channels. */
  const CHUNK := 1000

  function Total(r: PushResult): multiset<RouteKey> {
    multiset(r.accepted) + multiset(r.retryable) + multiset(r.dropped)
  }

  function Join(a: PushResult, b: PushResult): (r: PushResult)
    ensures Total(r) == Total(a) + Total(b)
  {
    PushResult(a.accepted + b.accepted, a.retryable + b.retryable, a.dropped + b.dropped)
  }

  // ---------------------------------------------------------------- grouping routes by a key

  /** The routes with key k, in order. */
  function Keyed<K(==)>(routes: seq<RouteKey>, key: RouteKey -> K, k: K): seq<RouteKey>
    decreases |routes|
  {
    if routes == [] then []
    else
      var n := |routes| - 1;
      Keyed(routes[..n], key, k) + if key(routes[n]) == k then [routes[n]] else []
  }

  /** The routes with a key among ks, in order. */
  function InKeys<K(==)>(routes: seq<RouteKey>, key: RouteKey -> K, ks: set<K>): seq<RouteKey>
    decreases |routes|
  {
    if routes == [] then []
    else
      var n := |routes| - 1;
      InKeys(routes[..n], key, ks) + if key(routes[n]) in ks then [routes[n]] else []
  }

  lemma {:induction false} KeyedSplit<K>(routes: seq<RouteKey>, key: RouteKey -> K, k: K, ks: set<K>)
    requires k in ks
    ensures multiset(InKeys(routes, key, ks))
      == multiset(Keyed(routes, key, k)) + multiset(InKeys(routes, key, ks - {k}))
    decreases |routes|
  {
    if routes != [] {
      KeyedSplit(routes[..|routes| - 1], key, k, ks);
    }
  }

  lemma {:induction false} InAllKeys<K>(routes: seq<RouteKey>, key: RouteKey -> K, ks: set<K>)
    requires forall i | 0 <= i < |routes| :: key(routes[i]) in ks
    ensures InKeys(routes, key, ks) == routes
    decreases |routes|
  {
    if routes != [] {
      InAllKeys(routes[..|routes| - 1], key, ks);
    }
  }

  lemma {:induction false} InNoKeys<K>(routes: seq<RouteKey>, key: RouteKey -> K)
    ensures InKeys(routes, key, {}) == []
    decreases |routes|
  {
    if routes != [] {
      InNoKeys(routes[..|routes| - 1], key);
    }
  }

  lemma {:induction false} KeyedMembers<K>(routes: seq<RouteKey>, key: RouteKey -> K, k: K)
    ensures forall r :: r in Keyed(routes, key, k) <==> r in routes && key(r) == k
    decreases |routes|
  {
    if routes != [] {
      KeyedMembers(routes[..|routes| - 1], key, k);
      assert routes == routes[..|routes| - 1] + [routes[|routes| - 1]];
    }
  }

  /** Holds one group per key that occurs, with exactly the routes of that key. */
  ghost predicate Groups<K(!new)>(m: map<K, seq<RouteKey>>, routes: seq<RouteKey>, key: RouteKey -> K) {
    && (forall r :: r in routes ==> key(r) in m)
    && (forall k :: k in m ==> m[k] != [] && m[k] == Keyed(routes, key, k))
  }

  lemma GroupsMembers<K(!new)>(m: map<K, seq<RouteKey>>, routes: seq<RouteKey>, key: RouteKey -> K, k: K)
    requires Groups(m, routes, key) && k in m
    ensures m[k] != [] && forall r :: r in m[k] <==> r in routes && key(r) == k
  {
    KeyedMembers(routes, key, k);
  }

  lemma NoMembers(routes: seq<RouteKey>)
    ensures routes == [] || routes[0] in routes
  {
  }

  lemma GroupsSnoc<K(!new)>(m: map<K, seq<RouteKey>>, routes: seq<RouteKey>, key: RouteKey -> K, r: RouteKey)
    requires Groups(m, routes, key)
    ensures var k := key(r); Groups(m[k := (if k in m then m[k] else []) + [r]], routes + [r], key)
  {
    var k := key(r);
    assert (routes + [r])[..|routes|] == routes;
    if k !in m {
      KeyedMembers(routes, key, k);
      NoMembers(Keyed(routes, key, k));
    }
  }

  /** One group fewer is left: it was one part of what was left before. */
  lemma GroupTaken<K(!new)>(m: map<K, seq<RouteKey>>, routes: seq<RouteKey>, key: RouteKey -> K, k: K, left: set<K>)
    requires Groups(m, routes, key) && k in left && left <= m.Keys
    ensures multiset(InKeys(routes, key, left)) == multiset(m[k]) + multiset(InKeys(routes, key, left - {k}))
  {
    KeyedSplit(routes, key, k, left);
  }

  lemma GroupsCover<K(!new)>(m: map<K, seq<RouteKey>>, routes: seq<RouteKey>, key: RouteKey -> K)
    requires Groups(m, routes, key)
    ensures InKeys(routes, key, m.Keys) == routes && InKeys(routes, key, {}) == []
  {
    InAllKeys(routes, key, m.Keys);
    InNoKeys(routes, key);
  }

  // ---------------------------------------------------------------- the local push

  datatype Connection = Connection(uid: UID, active: bool, hasSession: bool, writable: bool)

  /** The gateway on this node: its identity (zero when unknown) and the live connections by session. */
  datatype Gateway = Gateway(node: nat, boot: nat, online: nat -> Option<Connection>)

  datatype Outcome = Accepted | Retryable | Dropped

  /** The sender's own session does not get its message back. */
  predicate IsSender(env: Envelope, route: RouteKey) {
    env.senderSession != 0 && route.session == env.senderSession && (env.fromUID == "" || route.uid == env.fromUID)
  }

  function LocalOutcome(gw: Gateway, env: Envelope, route: RouteKey): Outcome {
    if IsSender(env, route) then Dropped
    else if gw.node != 0 && route.node != gw.node then Dropped
    else if gw.boot != 0 && route.boot != gw.boot then Dropped
    else
      match gw.online(route.session)
      case None => Dropped
      case Some(conn) =>
        if conn.uid != route.uid || !conn.active || !conn.hasSession then Dropped
        else if conn.writable then Accepted else Retryable
  }

  function ByOutcome(gw: Gateway, env: Envelope): RouteKey -> Outcome {
    r => LocalOutcome(gw, env, r)
  }

  /** Every route under its own outcome, in order. */
  function LocalResult(gw: Gateway, env: Envelope, routes: seq<RouteKey>): PushResult {
    PushResult(Keyed(routes, ByOutcome(gw, env), Accepted), Keyed(routes, ByOutcome(gw, env), Retryable),
               Keyed(routes, ByOutcome(gw, env), Dropped))
  }

  method LocalPush(gw: Gateway, env: Envelope, routes: seq<RouteKey>) returns (r: PushResult)
    ensures r == LocalResult(gw, env, routes)
    ensures Total(r) == multiset(routes)
    // A route is served here unless it is the sender's own, another node's or an earlier boot's, or its
    // session is not the live one of its user; what is served is accepted exactly when it can be written.
    ensures forall x ::
      x in r.accepted || x in r.retryable <==>
        && x in routes
        && !(env.senderSession != 0 && x.session == env.senderSession && env.fromUID in {"", x.uid})
        && gw.node in {0, x.node} && gw.boot in {0, x.boot} && gw.online(x.session).Some?
        && var conn := gw.online(x.session).value; conn.uid == x.uid && conn.active && conn.hasSession
    ensures forall x :: x in r.accepted ==> gw.online(x.session).Some? && gw.online(x.session).value.writable
    ensures forall x :: x in r.retryable ==> gw.online(x.session).Some? && !gw.online(x.session).value.writable
  {
    KeyedMembers(routes, ByOutcome(gw, env), Accepted);
    KeyedMembers(routes, ByOutcome(gw, env), Retryable);
    r := PushResult([], [], []);
    for k := 0 to |routes|
      invariant r.accepted == Keyed(routes[..k], ByOutcome(gw, env), Accepted)
      invariant r.retryable == Keyed(routes[..k], ByOutcome(gw, env), Retryable)
      invariant r.dropped == Keyed(routes[..k], ByOutcome(gw, env), Dropped)
    {
      assert routes[..k + 1][..k] == routes[..k];
      var route := routes[k];
      match LocalOutcome(gw, env, route)
      case Accepted => r := r.(accepted := r.accepted + [route]);
      case Retryable => r := r.(retryable := r.retryable + [route]);
      case Dropped => r := r.(dropped := r.dropped + [route]);
    }
    assert routes[..|routes|] == routes;
    OutcomesPartition(routes, ByOutcome(gw, env));
  }

  /** Three keys that cover the routes cut them into three parts. */
  lemma ThreeParts<K>(routes: seq<RouteKey>, key: RouteKey -> K, a: K, b: K, c: K)
    requires a != b && b != c && a != c
    requires forall i | 0 <= i < |routes| :: key(routes[i]) in {a, b, c}
    ensures multiset(Keyed(routes, key, a)) + multiset(Keyed(routes, key, b)) + multiset(Keyed(routes, key, c))
      == multiset(routes)
  {
    hide *;
    InAllKeys(routes, key, {a, b, c});
    KeyedSplit(routes, key, a, {a, b, c});
    assert {a, b, c} - {a} == {b, c};
    KeyedSplit(routes, key, b, {b, c});
    assert {b, c} - {b} == {c};
    KeyedSplit(routes, key, c, {c});
    assert {c} - {c} == {};
    InNoKeys(routes, key);
  }

  lemma OutcomesPartition(routes: seq<RouteKey>, key: RouteKey -> Outcome)
    ensures multiset(Keyed(routes, key, Accepted)) + multiset(Keyed(routes, key, Retryable))
      + multiset(Keyed(routes, key, Dropped))
         == multiset(routes)
  {
    hide *;
    forall i | 0 <= i < |routes| ensures key(routes[i]) in {Accepted, Retryable, Dropped} {
      var o := key(routes[i]);
      assert o.Accepted? || o.Retryable? || o.Dropped?;
    }
    ThreeParts(routes, key, Accepted, Retryable, Dropped);
  }

  // ---------------------------------------------------------------- reconciling a reply

  /** The routes a reply names. */
  function Reported(resp: Response): multiset<RouteKey> {
    (if resp.countSet then multiset{} else multiset(resp.accepted)) + multiset(resp.retryable) + multiset(resp.dropped)
  }

  /** Removes, from the left, as many copies of each route as are counted. */
  function Without(routes: seq<RouteKey>, counts: multiset<RouteKey>): seq<RouteKey> {
    if routes == [] then []
    else if counts[routes[0]] > 0 then Without(routes[1..], counts - multiset{routes[0]})
    else [routes[0]] + Without(routes[1..], counts)
  }

  lemma {:induction false} WithoutCounts(routes: seq<RouteKey>, counts: multiset<RouteKey>)
    ensures multiset(Without(routes, counts)) == multiset(routes) - counts
  {
    if routes != [] {
      assert routes == [routes[0]] + routes[1..];
      WithoutCounts(routes[1..], if counts[routes[0]] > 0 then counts - multiset{routes[0]} else counts);
    }
  }

  lemma {:induction false} WithoutNothing(routes: seq<RouteKey>)
    ensures Without(routes, multiset{}) == routes
  {
    if routes != [] {
      WithoutNothing(routes[1..]);
    }
  }

  /** The routes taken as accepted: those the reply lists, or the first ones it does not reject. */
  function AcceptedPart(routes: seq<RouteKey>, resp: Response): seq<RouteKey> {
    var candidates := Without(routes, Reported(resp));
    if !resp.countSet then resp.accepted
    else if resp.count < |candidates| then candidates[..resp.count] else candidates
  }

  /** The routes that the reply leaves open. */
  function MissingPart(routes: seq<RouteKey>, resp: Response): seq<RouteKey> {
    var candidates := Without(routes, Reported(resp));
    if !resp.countSet then candidates
    else if resp.count < |candidates| then candidates[resp.count..] else []
  }

  /** The routes that a reply reports beyond those that were sent. */
  function Excess(sent: multiset<RouteKey>, reply: Option<Response>): multiset<RouteKey> {
    if reply.None? then multiset{} else Reported(reply.value) - sent
  }

  function Reconciled(routes: seq<RouteKey>, resp: Response): PushResult {
    PushResult(AcceptedPart(routes, resp), resp.retryable, resp.dropped)
  }

  /** Accepted and missing routes together are the ones not named, next to the ones the reply lists as accepted. */
  lemma AcceptedOrMissing(routes: seq<RouteKey>, resp: Response)
    ensures multiset(AcceptedPart(routes, resp)) + multiset(MissingPart(routes, resp))
         == (if resp.countSet then multiset{} else multiset(resp.accepted)) + multiset(Without(routes, Reported(resp)))
    ensures multiset(MissingPart(routes, resp)) <= multiset(Without(routes, Reported(resp)))
  {
    var candidates := Without(routes, Reported(resp));
    hide Without;
    if resp.countSet && resp.count < |candidates| {
      assert candidates == candidates[..resp.count] + candidates[resp.count..];
    }
  }

  /**
   How a reply is read. A listing reply accepts what it lists and leaves open what it does not
   name; a counting reply accepts the first `count` routes that it does not reject, or all of
   them, and leaves the others open.
   */
  lemma ReplyParts(routes: seq<RouteKey>, resp: Response)
    ensures var accepted, missing := AcceptedPart(routes, resp), MissingPart(routes, resp);
      if resp.countSet then
        && multiset(accepted + missing) == multiset(routes) - (multiset(resp.retryable) + multiset(resp.dropped))
        && |accepted| <= resp.count && (missing != [] ==> |accepted| == resp.count)
      else
        && accepted == resp.accepted
        && multiset(missing)
           == multiset(routes) - (multiset(resp.accepted) + multiset(resp.retryable) + multiset(resp.dropped))
  {
    var open := Without(routes, Reported(resp));
    WithoutCounts(routes, Reported(resp));
    hide Without;
    if resp.countSet {
      assert multiset{} + multiset(resp.retryable) + multiset(resp.dropped)
        == multiset(resp.retryable) + multiset(resp.dropped);
      assert AcceptedPart(routes, resp) + MissingPart(routes, resp) == open;
    }
  }

  /** A counting reply that rejects nothing splits the routes where its count says. */
  lemma CountedInOrder(routes: seq<RouteKey>, count: nat)
    ensures var resp := Response(true, count, [], [], []);
      && AcceptedPart(routes, resp) + MissingPart(routes, resp) == routes
      && |AcceptedPart(routes, resp)| == if count < |routes| then count else |routes|
  {
    assert Reported(Response(true, count, [], [], [])) == multiset{};
    WithoutNothing(routes);
    hide Without;
  }

  lemma AddNamed<T>(acc: multiset<T>, missing: multiset<T>, listed: multiset<T>, open: multiset<T>,
      ret: multiset<T>, drop: multiset<T>)
    requires acc + missing == listed + open
    ensures acc + ret + drop + missing == open + (listed + ret + drop)
  {
    forall k: T ensures (acc + ret + drop + missing)[k] == (open + (listed + ret + drop))[k] {
      assert (acc + missing)[k] == (listed + open)[k];
    }
  }

  /** Nothing is lost over a reply: what it settles and what it leaves open is what was sent, plus its excess. */
  lemma ReplyAccounting(routes: seq<RouteKey>, resp: Response)
    ensures Total(Reconciled(routes, resp)) + multiset(MissingPart(routes, resp))
         == multiset(routes) + Excess(multiset(routes), Some(resp))
    ensures multiset(MissingPart(routes, resp)) <= multiset(routes)
  {
    var open := Without(routes, Reported(resp));
    WithoutCounts(routes, Reported(resp));
    AcceptedOrMissing(routes, resp);
    hide Without, AcceptedPart, MissingPart;
    DifferenceSum(multiset(routes), Reported(resp));
    AddNamed(multiset(AcceptedPart(routes, resp)), multiset(MissingPart(routes, resp)),
             if resp.countSet then multiset{}
               else multiset(resp.accepted), multiset(open), multiset(resp.retryable), multiset(resp.dropped));
  }

  lemma DifferenceSum<T>(x: multiset<T>, y: multiset<T>)
    ensures (x - y) + y == x + (y - x)
  {
  }

  method RemoveCounted(routes: seq<RouteKey>, counts: multiset<RouteKey>) returns (out: seq<RouteKey>)
    ensures out == Without(routes, counts)
  {
    out := [];
    var left := counts;
    assert routes[0..] == routes;
    for k := 0 to |routes|
      invariant out + Without(routes[k..], left) == Without(routes, counts)
    {
      assert routes[k..][1..] == routes[k + 1..];
      if left[routes[k]] > 0 {
        left := left - multiset{routes[k]};
      } else {
        assert out + ([routes[k]] + Without(routes[k + 1..], left))
          == out + [routes[k]] + Without(routes[k + 1..], left);
        out := out + [routes[k]];
      }
    }
    assert out + [] == out;
  }

  method AcceptedAndUnreported(routes: seq<RouteKey>, resp: Response) returns (accepted: seq<RouteKey>,
      missing: seq<RouteKey>)
    ensures accepted == AcceptedPart(routes, resp) && missing == MissingPart(routes, resp)
  {
    if resp.countSet {
      if resp.retryable == [] && resp.dropped == [] {
        WithoutNothing(routes);
        assert Reported(resp) == multiset{};
        if resp.count >= |routes| {
          return routes, [];
        }
        return routes[..resp.count], routes[resp.count..];
      }
      var candidates := RemoveCounted(routes, Reported(resp));
      if resp.count > |candidates| {
        return candidates, [];
      }
      return candidates[..resp.count], candidates[resp.count..];
    }
    missing := RemoveCounted(routes, Reported(resp));
    return resp.accepted, missing;
  }

  method MergeResponse(result: PushResult, routes: seq<RouteKey>, resp: Response) returns (r: PushResult)
    ensures r == Join(result, Reconciled(routes, resp))
  {
    var accepted, _ := AcceptedAndUnreported(routes, resp);
    r := PushResult(result.accepted + accepted, result.retryable + resp.retryable, result.dropped + resp.dropped);
  }

  // ---------------------------------------------------------------- what goes over the wire

  function ItemRoutes(items: seq<Item>): multiset<RouteKey>
    decreases |items|
  {
    if items == [] then multiset{} else ItemRoutes(items[..|items| - 1]) + multiset(items[|items| - 1].routes)
  }

  lemma ItemsSnoc(items: seq<Item>, item: Item)
    ensures ItemRoutes(items + [item]) == ItemRoutes(items) + multiset(item.routes)
  {
    assert (items + [item])[..|items|] == items;
  }

  /** Everything that the replies of these calls report beyond what was sent. */
  function ExcessOf(log: seq<Exchange>): multiset<RouteKey>
    decreases |log|
  {
    if log == [] then multiset{}
    else ExcessOf(log[..|log| - 1]) + Excess(ItemRoutes(log[|log| - 1].items), log[|log| - 1].reply)
  }

  /** The routes sent by the batch calls, or by the legacy calls. */
  function SentBy(log: seq<Exchange>, legacy: bool): multiset<RouteKey>
    decreases |log|
  {
    if log == [] then multiset{}
    else
      SentBy(log[..|log| - 1], legacy)
      + if log[|log| - 1].legacy == legacy then ItemRoutes(log[|log| - 1].items) else multiset{}
  }

  lemma {:induction false} LogConcat(a: seq<Exchange>, b: seq<Exchange>)
    ensures ExcessOf(a + b) == ExcessOf(a) + ExcessOf(b)
    ensures SentBy(a + b, true) == SentBy(a, true) + SentBy(b, true)
    ensures SentBy(a + b, false) == SentBy(a, false) + SentBy(b, false)
    decreases |b|
  {
    hide Excess, ItemRoutes;
    if b == [] {
      assert a + b == a;
    } else {
      assert (a + b)[..|a + b| - 1] == a + b[..|b| - 1];
      assert (a + b)[|a + b| - 1] == b[|b| - 1];
      LogConcat(a, b[..|b| - 1]);
    }
  }

  // ------- under which outcome

  /** The routes that a call settles as accepted: those that its reply lists or counts. */
  function AcceptedIn(e: Exchange): seq<RouteKey> {
    if e.reply.Some? then AcceptedPart(e.routes, e.reply.value) else []
  }

  /** Those it settles as retryable: what the reply lists, and what a legacy call leaves open, answered or not. */
  function RetryableIn(e: Exchange): seq<RouteKey> {
    match e.reply
    case None => if e.legacy then e.routes else []
    case Some(resp) => resp.retryable + if e.legacy then MissingPart(e.routes, resp) else []
  }

  function DroppedIn(e: Exchange): seq<RouteKey> {
    if e.reply.Some? then e.reply.value.dropped else []
  }

  /** What all calls settle together, outcome by outcome. */
  function SettledBy(log: seq<Exchange>): PushResult
    decreases |log|
  {
    if log == [] then PushResult([], [], [])
    else
      var e := log[|log| - 1];
      Join(SettledBy(log[..|log| - 1]), PushResult(AcceptedIn(e), RetryableIn(e), DroppedIn(e)))
  }

  lemma {:induction false} SettledConcat(a: seq<Exchange>, b: seq<Exchange>)
    ensures SettledBy(a + b) == Join(SettledBy(a), SettledBy(b))
    decreases |b|
  {
    hide AcceptedIn, RetryableIn, DroppedIn;
    if b == [] {
      WithNothing(a);
      JoinNothing(SettledBy(a));
    } else {
      var init, e := b[..|b| - 1], b[|b| - 1];
      assert (a + b)[..|a + b| - 1] == a + init && (a + b)[|a + b| - 1] == e;
      SettledConcat(a, init);
      JoinThree(SettledBy(a), SettledBy(init), PushResult(AcceptedIn(e), RetryableIn(e), DroppedIn(e)));
    }
  }

  lemma JoinNothing(r: PushResult)
    ensures Join(r, PushResult([], [], [])) == r && Join(PushResult([], [], []), r) == r
  {
    WithNothing(r.accepted);
    WithNothing(r.retryable);
    WithNothing(r.dropped);
  }

  lemma JoinThree(a: PushResult, b: PushResult, c: PushResult)
    ensures Join(Join(a, b), c) == Join(a, Join(b, c))
  {
    Regroup(a.accepted, b.accepted, c.accepted);
    Regroup(a.retryable, b.retryable, c.retryable);
    Regroup(a.dropped, b.dropped, c.dropped);
  }

  lemma SettledOne(e: Exchange)
    ensures SettledBy([e]) == PushResult(AcceptedIn(e), RetryableIn(e), DroppedIn(e))
  {
    hide AcceptedIn, RetryableIn, DroppedIn;
    assert [e][..0] == [];
    JoinNothing(PushResult(AcceptedIn(e), RetryableIn(e), DroppedIn(e)));
  }

  /** Peers that do not answer accept nothing and drop nothing: all that is settled is to be retried. */
  lemma {:induction false} NoAnswerSettlesNothing(log: seq<Exchange>)
    requires forall e :: e in log ==> e.reply.None?
    ensures SettledBy(log).accepted == [] && SettledBy(log).dropped == []
    decreases |log|
  {
    if log != [] {
      LastApart(log);
      NoAnswerSettlesNothing(log[..|log| - 1]);
    }
  }

  /** The reply names no route more often than it was sent. */
  ghost predicate WithinSent(e: Exchange) {
    e.reply.Some? ==> Reported(e.reply.value) <= ItemRoutes(e.items)
  }

  lemma NoExcess(e: Exchange)
    ensures Excess(ItemRoutes(e.items), e.reply) == multiset{} <==> WithinSent(e)
  {
    if e.reply.Some? {
      DifferenceIsEmpty(Reported(e.reply.value), ItemRoutes(e.items));
    }
  }

  /** A push returns exactly its routes if and only if no reply names a route more often than it was sent. */
  lemma {:induction false} NoExcessExactly(log: seq<Exchange>)
    ensures ExcessOf(log) == multiset{} <==> forall e :: e in log ==> WithinSent(e)
    decreases |log|
  {
    if log != [] {
      var init, last := log[..|log| - 1], log[|log| - 1];
      assert ExcessOf(log) == ExcessOf(init) + Excess(ItemRoutes(last.items), last.reply);
      hide *;
      NoExcessExactly(init);
      NoExcess(last);
      SumIsEmpty(ExcessOf(init), Excess(ItemRoutes(last.items), last.reply));
      MembersSnoc(log);
    }
  }

  lemma MembersSnoc<T>(s: seq<T>)
    requires s != []
    ensures forall e :: e in s <==> e in s[..|s| - 1] || e == s[|s| - 1]
  {
    assert s == s[..|s| - 1] + [s[|s| - 1]];
  }

  lemma SumIsEmpty<T>(x: multiset<T>, y: multiset<T>)
    ensures x + y == multiset{} <==> x == multiset{} && y == multiset{}
  {
    if x + y == multiset{} {
      forall k: T ensures x[k] == 0 && y[k] == 0 {
        assert (x + y)[k] == 0;
      }
    }
  }

  lemma DifferenceIsEmpty<T>(x: multiset<T>, y: multiset<T>)
    ensures x - y == multiset{} <==> x <= y
  {
    if x - y == multiset{} {
      forall k: T ensures x[k] <= y[k] {
        assert (x - y)[k] == 0;
      }
    }
  }

  lemma LogOne(e: Exchange)
    ensures ExcessOf([e]) == Excess(ItemRoutes(e.items), e.reply)
    ensures SentBy([e], e.legacy) == ItemRoutes(e.items) && SentBy([e], !e.legacy) == multiset{}
  {
    assert [e][..0] == [];
  }

  function EncodeFor(env: Envelope, uid: UID): Option<Frame> {
    env.frames(env.view(if env.person then uid else ""))
  }

  /** Every recipient of the item gets the frame of the channel it sees, on its own node, and is not the sender. */
  ghost predicate ProperItem(env: Envelope, node: nat, item: Item) {
    && item.routes != [] && (!env.person ==> |item.routes| <= CHUNK)
    && forall r :: r in item.routes ==> r.node == node && !IsSender(env, r) && EncodeFor(env, r.uid) == Some(item.frame)
  }

  ghost predicate Proper(env: Envelope, local: nat, e: Exchange) {
    && e.node != local && ItemRoutes(e.items) == multiset(e.routes)
    && forall item :: item in e.items ==> ProperItem(env, e.node, item)
  }

  ghost predicate AllProper(env: Envelope, local: nat, log: seq<Exchange>) {
    forall e :: e in log ==> Proper(env, local, e)
  }

  /** The routes that one step was given are all in its result, next to the excess of the replies it got. */
  ghost predicate Accounted(routes: multiset<RouteKey>, sent: seq<Exchange>, r: PushResult) {
    && Total(r) == routes + ExcessOf(sent)
    && SentBy(sent, false) == routes && SentBy(sent, true) <= routes
  }

  lemma AccountedJoin(a: multiset<RouteKey>, sa: seq<Exchange>, ra: PushResult, b: multiset<RouteKey>,
      sb: seq<Exchange>, rb: PushResult)
    requires Accounted(a, sa, ra) && Accounted(b, sb, rb)
    ensures Accounted(a + b, sa + sb, Join(ra, rb))
  {
    LogConcat(sa, sb);
  }

  lemma ProperJoin(env: Envelope, local: nat, a: seq<Exchange>, b: seq<Exchange>)
    requires AllProper(env, local, a) && AllProper(env, local, b)
    ensures AllProper(env, local, a + b)
  {
  }

  /** Midway through the items: what is settled next to what is still counted as missing is what was missing. */
  ghost predicate Settling(missing: multiset<RouteKey>, done: multiset<RouteKey>, counts: multiset<RouteKey>,
      sent: seq<Exchange>, r: PushResult) {
    && counts == missing - done
    && Total(r) + counts == missing + ExcessOf(sent)
    && SentBy(sent, true) + counts == missing && SentBy(sent, false) == multiset{}
  }

  lemma Rearrange<T>(x: multiset<T>, y: multiset<T>, left: multiset<T>, counts: multiset<T>, missing: multiset<T>,
      ex: multiset<T>, ey: multiset<T>)
    requires x + counts == missing + ex && y + left == counts + ey
    ensures (x + y) + left == missing + (ex + ey)
  {
    var a, b := (x + y) + left, missing + (ex + ey);
    forall k: T | k in a || k in b ensures a[k] == b[k] {
      assert (x + counts)[k] == (missing + ex)[k] && (y + left)[k] == (counts + ey)[k];
    }
  }

  lemma AddLeft<T>(x: multiset<T>, m: multiset<T>, left: multiset<T>, counts: multiset<T>, e: multiset<T>)
    requires x == m + e && left + m == counts
    ensures x + left == counts + e
  {
    forall k: T | k in x + left || k in counts + e ensures (x + left)[k] == (counts + e)[k] {
      assert x[k] == (m + e)[k] && (left + m)[k] == counts[k];
    }
  }

  lemma SettlingMore(missing: multiset<RouteKey>, done: multiset<RouteKey>, counts: multiset<RouteKey>,
      sent: seq<Exchange>, r: PushResult,
                     item: multiset<RouteKey>, left: multiset<RouteKey>, part: seq<Exchange>, one: PushResult)
    requires Settling(missing, done, counts, sent, r)
    requires Settling(counts, item, left, part, one)
    ensures Settling(missing, done + item, left, sent + part, Join(r, one))
  {
    hide Total, ExcessOf, SentBy, Join;
    LogConcat(sent, part);
    DifferenceTwice(missing, done, item);
    Rearrange(Total(r), Total(one), left, counts, missing, ExcessOf(sent), ExcessOf(part));
    Rearrange(SentBy(sent, true), SentBy(part, true), left, counts, missing, multiset{}, multiset{});
  }

  lemma DifferenceTwice<T>(x: multiset<T>, y: multiset<T>, z: multiset<T>)
    ensures x - y - z == x - (y + z)
  {
  }

  lemma SettlingNone(env: Envelope, local: nat, missing: multiset<RouteKey>)
    ensures Settling(missing, ItemRoutes([]), missing, [], PushResult([], [], [])) && AllProper(env, local, [])
  {
  }

  lemma SettlingOne(env: Envelope, local: nat, routes: seq<RouteKey>, item: multiset<RouteKey>,
      counts: multiset<RouteKey>, left: multiset<RouteKey>, e: Exchange, r: PushResult)
    requires left == counts - item && left + multiset(routes) == counts
    requires Proper(env, local, e) && e.legacy && ItemRoutes(e.items) == multiset(routes)
    requires Total(r) == multiset(routes) + Excess(multiset(routes), e.reply)
    ensures Settling(counts, item, left, [e], r) && AllProper(env, local, [e])
  {
    LogOne(e);
    hide Total, Excess, ExcessOf, SentBy;
    AddLeft(Total(r), multiset(routes), left, counts, ExcessOf([e]));
  }

  lemma SettlingDone(missing: multiset<RouteKey>, done: multiset<RouteKey>, counts: multiset<RouteKey>,
      sent: seq<Exchange>, r: PushResult)
    requires Settling(missing, done, counts, sent, r) && missing <= done
    ensures Total(r) == missing + ExcessOf(sent) && SentBy(sent, true) == missing && SentBy(sent, false) == multiset{}
  {
    assert counts == multiset{};
  }

  /** The RPC client: each call's reply is arbitrary, and the calls are kept in order. */
  class PeerClient {
    const script: nat -> Option<Response>
    var log: seq<Exchange>

    constructor (script: nat -> Option<Response>)
      ensures this.script == script && log == []
    {
      this.script, log := script, [];
    }

    method Call(node: nat, legacy: bool, routes: seq<RouteKey>, items: seq<Item>)
        returns (reply: Option<Response>)
      modifies this
      ensures log == old(log) + [Exchange(node, legacy, routes, items, reply)] && reply == script(|old(log)|)
    {
      reply := script(|log|);
      log := log + [Exchange(node, legacy, routes, items, reply)];
    }
  }

  /** The calls begin with a batch call, which is the client's n-th call. */
  ghost predicate BatchFirst(script: nat -> Option<Response>, n: nat, sent: seq<Exchange>) {
    sent != [] && !sent[0].legacy && sent[0].reply == script(n)
  }

  lemma BatchIsFirst(script: nat -> Option<Response>, n: nat, e: Exchange, part: seq<Exchange>)
    requires !e.legacy && e.reply == script(n)
    ensures BatchFirst(script, n, [e] + part) && BatchFirst(script, n, [e])
  {
  }

  /** Midway through a list: what is still counted, and what was taken out of the count. */
  ghost predicate Taking(counts: multiset<RouteKey>, seen: seq<RouteKey>, left: multiset<RouteKey>,
      taken: seq<RouteKey>) {
    && left == counts - multiset(seen) && left + multiset(taken) == counts
    && (forall r :: r in taken ==> r in seen) && |taken| <= |seen|
  }

  lemma TakingMore(counts: multiset<RouteKey>, seen: seq<RouteKey>, left: multiset<RouteKey>, taken: seq<RouteKey>,
      x: RouteKey)
    requires Taking(counts, seen, left, taken)
    ensures left[x] == 0 ==> Taking(counts, seen + [x], left, taken)
    ensures left[x] > 0 ==> Taking(counts, seen + [x], left - multiset{x}, taken + [x])
  {
  }

  /** Takes from an item the routes that are still counted as missing. */
  method TakeRoutes(routes: seq<RouteKey>, counts: multiset<RouteKey>) returns (taken: seq<RouteKey>,
      left: multiset<RouteKey>)
    ensures Taking(counts, routes, left, taken)
  {
    taken, left := [], counts;
    for k := 0 to |routes|
      invariant Taking(counts, routes[..k], left, taken)
    {
      hide *;
      assert routes[..k + 1] == routes[..k] + [routes[k]];
      TakingMore(counts, routes[..k], left, taken, routes[k]);
      if left[routes[k]] == 0 {
        continue;
      }
      left := left - multiset{routes[k]};
      taken := taken + [routes[k]];
    }
    assert routes[..|routes|] == routes;
  }

  // ---------------------------------------------------------------- items

  function NodeOf(r: RouteKey): nat { r.node }

  function ByView(env: Envelope): RouteKey -> string {
    (r: RouteKey) => env.view(r.uid)
  }

  /** The routes of one chunk: remote, all on one node, none of them the sender, and not too many. */
  ghost predicate Chunk(env: Envelope, node: nat, routes: seq<RouteKey>) {
    && routes != [] && (!env.person ==> |routes| <= CHUNK)
    && forall r :: r in routes ==> r.node == node && !IsSender(env, r)
  }

  ghost predicate ProperItems(env: Envelope, node: nat, items: seq<Item>) {
    forall item :: item in items ==> ProperItem(env, node, item)
  }

  ghost predicate Encodable(env: Envelope, routes: seq<RouteKey>) {
    forall r :: r in routes ==> EncodeFor(env, r.uid).Some?
  }

  /** One item for all routes when one frame serves them all. */
  method SharedItem(env: Envelope, node: nat, routes: seq<RouteKey>, uid: UID) returns (items: Option<seq<Item>>)
    requires Chunk(env, node, routes)
    requires forall r :: r in routes ==> EncodeFor(env, r.uid) == EncodeFor(env, uid)
    ensures items.Some? <==> Encodable(env, routes)
    ensures items.Some? ==> ItemRoutes(items.value) == multiset(routes) && ProperItems(env, node, items.value)
  {
    var frame := EncodeFor(env, uid);
    assert routes[0] in routes;
    if frame.None? {
      return None;
    }
    ItemsSnoc([], Item(routes, frame.value));
    assert [] + [Item(routes, frame.value)] == [Item(routes, frame.value)];
    return Some([Item(routes, frame.value)]);
  }

  method GroupByView(env: Envelope, routes: seq<RouteKey>) returns (byView: map<string, seq<RouteKey>>)
    ensures Groups(byView, routes, ByView(env))
  {
    byView := map[];
    for k := 0 to |routes|
      invariant Groups(byView, routes[..k], ByView(env))
    {
      hide Groups;
      assert routes[..k + 1] == routes[..k] + [routes[k]];
      GroupsSnoc(byView, routes[..k], ByView(env), routes[k]);
      var view := env.view(routes[k].uid);
      byView := byView[view := (if view in byView then byView[view] else []) + [routes[k]]];
    }
    assert routes[..|routes|] == routes;
  }

  /** Midway through the groups: the items hold the routes of the groups that are not left. */
  ghost predicate Itemized(env: Envelope, node: nat, routes: seq<RouteKey>, left: set<string>, items: seq<Item>) {
    && ItemRoutes(items) + multiset(InKeys(routes, ByView(env), left)) == multiset(routes)
    && ProperItems(env, node, items)
    && forall r :: r in routes ==> env.view(r.uid) in left || EncodeFor(env, r.uid).Some?
  }

  lemma ItemizedStart(env: Envelope, node: nat, routes: seq<RouteKey>, byView: map<string, seq<RouteKey>>)
    requires Groups(byView, routes, ByView(env))
    ensures Itemized(env, node, routes, byView.Keys, [])
  {
    GroupsCover(byView, routes, ByView(env));
  }

  lemma ItemizedMore(env: Envelope, node: nat, routes: seq<RouteKey>, byView: map<string, seq<RouteKey>>,
      left: set<string>, items: seq<Item>, view: string)
    requires env.person && Chunk(env, node, routes) && Groups(byView, routes, ByView(env))
      && Itemized(env, node, routes, left, items)
    requires view in left && left <= byView.Keys
    ensures byView[view] != []
    ensures var frame := EncodeFor(env, byView[view][0].uid);
      if frame.Some? then Itemized(env, node, routes, left - {view}, items + [Item(byView[view], frame.value)])
      else !Encodable(env, routes)
  {
    GroupsMembers(byView, routes, ByView(env), view);
    var group := byView[view];
    var frame := EncodeFor(env, group[0].uid);
    assert group[0] in group;
    GroupTaken(byView, routes, ByView(env), view, left);
    if frame.Some? {
      ItemsSnoc(items, Item(group, frame.value));
      hide ItemRoutes, InKeys, Groups;
      assert ProperItem(env, node, Item(group, frame.value));
      AddItem(ItemRoutes(items), multiset(group), multiset(InKeys(routes, ByView(env), left - {view})),
        multiset(routes));
    }
  }

  lemma AddItem<T>(items: multiset<T>, group: multiset<T>, left: multiset<T>, total: multiset<T>)
    requires items + (group + left) == total
    ensures (items + group) + left == total
  {
  }

  lemma ItemizedDone(env: Envelope, node: nat, routes: seq<RouteKey>, items: seq<Item>)
    requires Itemized(env, node, routes, {}, items)
    ensures ItemRoutes(items) == multiset(routes) && ProperItems(env, node, items) && Encodable(env, routes)
  {
    InNoKeys(routes, ByView(env));
  }

  /**
   The items of one chunk: for a person channel one item per channel view, in any order;
   otherwise one item for all. They carry exactly the routes of the chunk, each recipient
   with its own frame, and fail exactly when some recipient's frame cannot be encoded.
   */
  method PushItems(env: Envelope, node: nat, routes: seq<RouteKey>) returns (items: Option<seq<Item>>)
    requires Chunk(env, node, routes)
    ensures items.Some? <==> Encodable(env, routes)
    ensures items.Some? ==> ItemRoutes(items.value) == multiset(routes) && ProperItems(env, node, items.value)
    // Every recipient gets the frame of the channel as it sees it; only person channels differ by recipient.
    ensures items.Some? ==> forall item, x :: item in items.value && x in item.routes ==>
      env.frames(env.view(if env.person then x.uid else "")) == Some(item.frame)
  {
    if !env.person {
      items := SharedItem(env, node, routes, "");
      return;
    }
    if |routes| == 1 {
      items := SharedItem(env, node, routes, routes[0].uid);
      return;
    }
    hide *;
    var byView := GroupByView(env, routes);
    var out: seq<Item> := [];
    var left := byView.Keys;
    ItemizedStart(env, node, routes, byView);
    while left != {}
      invariant left <= byView.Keys && Itemized(env, node, routes, left, out)
      decreases left
    {
      var view :| view in left;
      ItemizedMore(env, node, routes, byView, left, out, view);
      var frame := EncodeFor(env, byView[view][0].uid);
      if frame.None? {
        return None;
      }
      out, left := out + [Item(byView[view], frame.value)], left - {view};
    }
    ItemizedDone(env, node, routes, out);
    return Some(out);
  }

  // ---------------------------------------------------------------- splitting the routes of a push

  datatype Place = Sender | Here | Remote

  function PlaceOf(env: Envelope, local: nat, r: RouteKey): Place {
    if IsSender(env, r) then Sender else if r.node == local then Here else Remote
  }

  function ByPlace(env: Envelope, local: nat): RouteKey -> Place {
    (r: RouteKey) => PlaceOf(env, local, r)
  }

  function RoutesAt(env: Envelope, local: nat, routes: seq<RouteKey>, place: Place): seq<RouteKey> {
    Keyed(routes, ByPlace(env, local), place)
  }

  lemma PlacesPartition(env: Envelope, local: nat, routes: seq<RouteKey>)
    ensures multiset(RoutesAt(env, local, routes, Sender)) + multiset(RoutesAt(env, local, routes, Here))
            + multiset(RoutesAt(env, local, routes, Remote)) == multiset(routes)
  {
    var key := ByPlace(env, local);
    hide PlaceOf, IsSender, Keyed, ByPlace;
    forall i | 0 <= i < |routes| ensures key(routes[i]) in {Sender, Here, Remote} {
      var p := key(routes[i]);
      assert p.Sender? || p.Here? || p.Remote?;
    }
    ThreeParts(routes, key, Sender, Here, Remote);
  }

  lemma RoutesAtSnoc(env: Envelope, local: nat, routes: seq<RouteKey>, r: RouteKey, place: Place)
    ensures RoutesAt(env, local, routes + [r], place)
         == if PlaceOf(env, local, r) == place then RoutesAt(env, local, routes, place) + [r] else RoutesAt(env, local,
           routes, place)
  {
    assert (routes + [r])[..|routes|] == routes;
    assert RoutesAt(env, local, routes, place) + [] == RoutesAt(env, local, routes, place);
  }

  method SplitRoutes(env: Envelope, local: nat, routes: seq<RouteKey>)
      returns (dropped: seq<RouteKey>, here: seq<RouteKey>, byNode: map<nat, seq<RouteKey>>)
    ensures dropped == RoutesAt(env, local, routes, Sender) && here == RoutesAt(env, local, routes, Here)
    ensures Groups(byNode, RoutesAt(env, local, routes, Remote), NodeOf)
    ensures forall x ::
      x in dropped <==>
        && x in routes && env.senderSession != 0 && x.session == env.senderSession && env.fromUID in {"", x.uid}
    ensures forall x :: x in here <==> x in routes && x !in dropped && x.node == local
    ensures forall n :: n in byNode ==> n != local && forall x :: x in byNode[n] ==> x.node == n && x in routes
  {
    PlacedRoutes(env, local, routes);
    dropped, here, byNode := [], [], map[];
    assert routes[..0] == [];
    for k := 0 to |routes|
      invariant dropped == RoutesAt(env, local, routes[..k], Sender) && here == RoutesAt(env, local, routes[..k], Here)
      invariant Groups(byNode, RoutesAt(env, local, routes[..k], Remote), NodeOf)
    {
      hide Groups, RoutesAt, Keyed, ByPlace, IsSender;
      var route := routes[k];
      assert routes[..k + 1] == routes[..k] + [route];
      RoutesAtSnoc(env, local, routes[..k], route, Sender);
      RoutesAtSnoc(env, local, routes[..k], route, Here);
      RoutesAtSnoc(env, local, routes[..k], route, Remote);
      GroupsSnoc(byNode, RoutesAt(env, local, routes[..k], Remote), NodeOf, route);
      if IsSender(env, route) {
        dropped := dropped + [route];
        continue;
      }
      if route.node == local {
        here := here + [route];
        continue;
      }
      byNode := byNode[route.node := (if route.node in byNode then byNode[route.node] else []) + [route]];
    }
    assert routes[..|routes|] == routes;
    GroupedRemote(env, local, routes, byNode);
  }

  lemma PlacedRoutes(env: Envelope, local: nat, routes: seq<RouteKey>)
    ensures forall x ::
      x in RoutesAt(env, local, routes, Sender) <==>
        && x in routes && env.senderSession != 0 && x.session == env.senderSession && env.fromUID in {"", x.uid}
    ensures forall x ::
      x in RoutesAt(env, local, routes, Here) <==>
        x in routes && x !in RoutesAt(env, local, routes, Sender) && x.node == local
    ensures forall x ::
      x in RoutesAt(env, local, routes, Remote) <==>
        x in routes && x !in RoutesAt(env, local, routes, Sender) && x.node != local
  {
    KeyedMembers(routes, ByPlace(env, local), Sender);
    KeyedMembers(routes, ByPlace(env, local), Here);
    KeyedMembers(routes, ByPlace(env, local), Remote);
    hide Keyed;
  }

  lemma GroupedRemote(env: Envelope, local: nat, routes: seq<RouteKey>, byNode: map<nat, seq<RouteKey>>)
    requires Groups(byNode, RoutesAt(env, local, routes, Remote), NodeOf)
    ensures forall n :: n in byNode ==> n != local && forall x :: x in byNode[n] ==> x.node == n && x in routes
  {
    PlacedRoutes(env, local, routes);
    forall n | n in byNode
      ensures byNode[n] != [] && forall x ::
        x in byNode[n] <==> x in RoutesAt(env, local, routes, Remote) && x.node == n
    {
      GroupsMembers(byNode, RoutesAt(env, local, routes, Remote), NodeOf, n);
    }
    hide RoutesAt;
    forall n | n in byNode ensures n != local {
      assert byNode[n][0] in byNode[n];
    }
  }

  /** Routes that may be pushed to one node. */
  ghost predicate OnNode(env: Envelope, node: nat, routes: seq<RouteKey>) {
    routes != [] && forall r :: r in routes ==> r.node == node && !IsSender(env, r)
  }

  /** The routes before `end` are accounted for. */
  ghost predicate AccountedUpTo(routes: seq<RouteKey>, end: nat, sent: seq<Exchange>, r: PushResult)
    requires end <= |routes|
  {
    Accounted(multiset(routes[..end]), sent, r)
  }

  lemma NextChunk(routes: seq<RouteKey>, start: nat, end: nat, sent: seq<Exchange>, r: PushResult,
      part: seq<Exchange>, one: PushResult)
    requires start < end <= |routes| && AccountedUpTo(routes, start, sent, r)
      && Accounted(multiset(routes[start..end]), part, one)
    ensures AccountedUpTo(routes, end, sent + part, Join(r, one))
  {
    assert routes[..end] == routes[..start] + routes[start..end];
    AccountedJoin(multiset(routes[..start]), sent, r, multiset(routes[start..end]), part, one);
  }

  lemma NoChunkYet(routes: seq<RouteKey>)
    ensures AccountedUpTo(routes, 0, [], PushResult([], [], []))
  {
    assert routes[..0] == [];
  }

  lemma LastChunk(routes: seq<RouteKey>, sent: seq<Exchange>, r: PushResult)
    requires AccountedUpTo(routes, |routes|, sent, r)
    ensures Accounted(multiset(routes), sent, r)
  {
    assert routes[..|routes|] == routes;
  }

  lemma ChunkOf(env: Envelope, node: nat, routes: seq<RouteKey>, start: nat, end: nat)
    requires OnNode(env, node, routes) && start < end <= |routes| && (!env.person ==> end - start <= CHUNK)
    ensures Chunk(env, node, routes[start..end])
    ensures !env.person ==> (Encodable(env, routes[start..end]) <==> Encodable(env, routes))
  {
    assert routes[start] in routes && routes[start..end][0] in routes[start..end];
  }

  /** Midway through the nodes: the routes of the nodes that are not left are accounted for. */
  ghost predicate Delivered(env: Envelope, local: nat, remote: seq<RouteKey>, left: set<nat>, sent: seq<Exchange>,
      r: PushResult) {
    && AllProper(env, local, sent)
    && exists done: multiset<RouteKey> ::
         done + multiset(InKeys(remote, NodeOf, left)) == multiset(remote) && Accounted(done, sent, r)
  }

  lemma DeliveredStart(env: Envelope, local: nat, remote: seq<RouteKey>, byNode: map<nat, seq<RouteKey>>)
    requires Groups(byNode, remote, NodeOf)
    ensures Delivered(env, local, remote, byNode.Keys, [], PushResult([], [], []))
  {
    GroupsCover(byNode, remote, NodeOf);
    assert multiset{} + multiset(InKeys(remote, NodeOf, byNode.Keys)) == multiset(remote);
    assert Accounted(multiset{}, [], PushResult([], [], []));
  }

  lemma DeliveredMore(env: Envelope, local: nat, remote: seq<RouteKey>, byNode: map<nat, seq<RouteKey>>, left: set<nat>,
                      sent: seq<Exchange>, r: PushResult, node: nat, part: seq<Exchange>, one: PushResult)
    requires Groups(byNode, remote, NodeOf) && Delivered(env, local, remote, left, sent, r)
    requires node in left && left <= byNode.Keys && AllProper(env, local, part)
      && Accounted(multiset(byNode[node]), part, one)
    ensures Delivered(env, local, remote, left - {node}, sent + part, Join(r, one))
  {
    hide *;
    DeliveredUnfold(env, local, remote, left, sent, r);
    ProperJoin(env, local, sent, part);
    var done: multiset<RouteKey> :|
      done + multiset(InKeys(remote, NodeOf, left)) == multiset(remote) && Accounted(done, sent, r);
    GroupTaken(byNode, remote, NodeOf, node, left);
    AccountedJoin(done, sent, r, multiset(byNode[node]), part, one);
    AddItem(done, multiset(byNode[node]), multiset(InKeys(remote, NodeOf, left - {node})), multiset(remote));
    DeliveredFold(env, local, remote, left - {node}, sent + part, Join(r, one), done + multiset(byNode[node]));
  }

  lemma DeliveredUnfold(env: Envelope, local: nat, remote: seq<RouteKey>, left: set<nat>, sent: seq<Exchange>,
      r: PushResult)
    requires Delivered(env, local, remote, left, sent, r)
    ensures AllProper(env, local, sent)
    ensures exists done: multiset<RouteKey> ::
      done + multiset(InKeys(remote, NodeOf, left)) == multiset(remote) && Accounted(done, sent, r)
  {
  }

  lemma DeliveredFold(env: Envelope, local: nat, remote: seq<RouteKey>, left: set<nat>, sent: seq<Exchange>,
      r: PushResult, done: multiset<RouteKey>)
    requires AllProper(env, local, sent)
    requires done + multiset(InKeys(remote, NodeOf, left)) == multiset(remote) && Accounted(done, sent, r)
    ensures Delivered(env, local, remote, left, sent, r)
  {
  }

  lemma DeliveredDone(env: Envelope, local: nat, remote: seq<RouteKey>, sent: seq<Exchange>, r: PushResult)
    requires Delivered(env, local, remote, {}, sent, r)
    ensures AllProper(env, local, sent) && Accounted(multiset(remote), sent, r)
  {
    InNoKeys(remote, NodeOf);
    var done: multiset<RouteKey> :|
      done + multiset(InKeys(remote, NodeOf, {})) == multiset(remote) && Accounted(done, sent, r);
    assert done == multiset(remote);
  }

  /** The node and client that one push works with. */
  class DeliveryPush {
    const local: nat
    const gateway: Gateway
    const client: PeerClient?

    constructor (local: nat, gateway: Gateway, client: PeerClient?)
      ensures this.local == local && this.gateway == gateway && this.client == client
    {
      this.local, this.gateway, this.client := local, gateway, client;
    }

    /** Sends one item the old way and settles its routes: what the reply leaves open is retryable. */
    method PushLegacyItem(env: Envelope, node: nat, routes: seq<RouteKey>, frame: Frame) returns (r: PushResult,
        ghost e: Exchange)
      requires client != null && node != local && ProperItem(env, node, Item(routes, frame))
      modifies client
      ensures client.log == old(client.log) + [e] && Proper(env, local, e)
      ensures e.legacy && e.routes == routes && ItemRoutes(e.items) == multiset(routes)
      ensures r == SettledBy([e])
      ensures Total(r) == multiset(routes) + Excess(multiset(routes), e.reply)
    {
      hide *;
      var items := [Item(routes, frame)];
      OneItem(env, node, Item(routes, frame));
      var reply := client.Call(node, true, routes, items);
      e := Exchange(node, true, routes, items, reply);
      ProperBatch(env, local, e);
      ProperOne(env, local, e);
      SettledOne(e);
      LegacySettles(e);
      if reply.None? {
        NoReplyNoExcess(multiset(routes));
        return PushResult([], routes, []), e;
      }
      ReplyAccounting(routes, reply.value);
      r := MergeResponse(PushResult([], [], []), routes, reply.value);
      JoinNothing(Reconciled(routes, reply.value));
      var _, missing := AcceptedAndUnreported(routes, reply.value);
      LegacyReply(routes, reply.value);
      r := Join(r, PushResult([], missing, []));
    }

    lemma OneItem(env: Envelope, node: nat, item: Item)
      requires ProperItem(env, node, item)
      ensures ItemRoutes([item]) == multiset(item.routes) && ProperItems(env, node, [item])
    {
      ItemsSnoc([], item);
      assert [] + [item] == [item];
    }

    lemma ProperOne(env: Envelope, local: nat, e: Exchange)
      requires AllProper(env, local, [e])
      ensures Proper(env, local, e)
    {
      assert e in [e];
      hide Proper;
    }

    /** What one legacy call settles; an unanswered one leaves all its routes to be retried. */
    lemma LegacySettles(e: Exchange)
      requires e.legacy
      ensures e.reply.None? ==> PushResult(AcceptedIn(e), RetryableIn(e), DroppedIn(e)) == PushResult([], e.routes, [])
      ensures e.reply.None? ==> Total(PushResult([], e.routes, [])) == multiset(e.routes)
      ensures e.reply.Some? ==>
        var open := PushResult([], MissingPart(e.routes, e.reply.value), []);
        PushResult(AcceptedIn(e), RetryableIn(e), DroppedIn(e)) == Join(Reconciled(e.routes, e.reply.value), open)
    {
      hide AcceptedPart, MissingPart;
      if e.reply.Some? {
        WithNothing(AcceptedPart(e.routes, e.reply.value));
        WithNothing(e.reply.value.dropped);
      }
    }

    lemma LegacyReply(routes: seq<RouteKey>, resp: Response)
      ensures Total(Join(Reconciled(routes, resp), PushResult([], MissingPart(routes, resp), [])))
        == Total(Reconciled(routes, resp)) + multiset(MissingPart(routes, resp))
    {
      hide Reconciled, MissingPart, Join;
    }

    /** The part of one item that is still missing. */
    method PushLegacyPart(env: Envelope, node: nat, item: Item, counts: multiset<RouteKey>)
        returns (r: PushResult, left: multiset<RouteKey>, ghost sent: seq<Exchange>)
      requires client != null && node != local && ProperItem(env, node, item)
      modifies client
      ensures client.log == old(client.log) + sent && AllProper(env, local, sent)
      ensures Settling(counts, multiset(item.routes), left, sent, r) && r == SettledBy(sent)
    {
      r, sent := PushResult([], [], []), [];
      var routes;
      routes, left := TakeRoutes(item.routes, counts);
      assert client.log == old(client.log) + sent;
      if routes == [] {
        return;
      }
      hide *;
      PartOfItem(env, node, item, routes);
      ghost var e;
      r, e := PushLegacyItem(env, node, routes, item.frame);
      SettlingOne(env, local, routes, multiset(item.routes), counts, left, e, r);
      sent := [e];
    }

    /** Settles the missing routes by one legacy call per item that still has some. */
    method PushLegacyItems(env: Envelope, node: nat, items: seq<Item>, missing: seq<RouteKey>)
        returns (r: PushResult, ghost sent: seq<Exchange>)
      requires client != null && node != local && multiset(missing) <= ItemRoutes(items)
      requires forall item :: item in items ==> ProperItem(env, node, item)
      modifies client
      ensures client.log == old(client.log) + sent && AllProper(env, local, sent)
      ensures Total(r) == multiset(missing) + ExcessOf(sent)
      ensures SentBy(sent, true) == multiset(missing) && SentBy(sent, false) == multiset{}
      ensures r == SettledBy(sent)
    {
      hide *;
      var counts := multiset(missing);
      r, sent := PushResult([], [], []), [];
      NothingSettled();
      SettlingNone(env, local, counts);
      assert items[..0] == [];
      for k := 0 to |items|
        invariant client.log == old(client.log) + sent && AllProper(env, local, sent)
        invariant Settling(multiset(missing), ItemRoutes(items[..k]), counts, sent, r) && r == SettledBy(sent)
      {
        assert items[..k + 1] == items[..k] + [items[k]];
        ItemsSnoc(items[..k], items[k]);
        assert items[k] in items;
        ghost var before := sent;
        var one, left;
        ghost var part;
        one, left, part := PushLegacyPart(env, node, items[k], counts);
        SettlingMore(multiset(missing), ItemRoutes(items[..k]), counts, before, r, multiset(items[k].routes), left,
          part, one);
        counts := left;
        SettledConcat(before, part);
        r := Join(r, one);
        ProperJoin(env, local, before, part);
        assert old(client.log) + (before + part) == old(client.log) + before + part;
        sent := before + part;
      }
      assert items[..|items|] == items;
      SettlingDone(multiset(missing), ItemRoutes(items), counts, sent, r);
    }

    lemma NothingSettled()
      ensures SettledBy([]) == PushResult([], [], [])
    {
    }

    lemma PartOfItem(env: Envelope, node: nat, item: Item, routes: seq<RouteKey>)
      requires ProperItem(env, node, item) && routes != [] && |routes| <= |item.routes|
      requires forall r :: r in routes ==> r in item.routes
      ensures ProperItem(env, node, Item(routes, item.frame))
    {
    }

    lemma NoReplyNoExcess(sent: multiset<RouteKey>)
      ensures Excess(sent, None) == multiset{}
    {
    }

    /**
     One batch call with its fallback: what the reply does not name is sent again item by item.
     Fails exactly when a frame cannot be encoded, and then before any call.
     */
    method PushRemoteNodeChunk(env: Envelope, node: nat, routes: seq<RouteKey>)
        returns (r: Result<PushResult, EncodeError>, ghost sent: seq<Exchange>)
      requires client != null && node != local && Chunk(env, node, routes)
      modifies client
      ensures client.log == old(client.log) + sent && AllProper(env, local, sent)
      ensures r.Ok? <==> Encodable(env, routes)
      ensures r.Ok? ==> Accounted(multiset(routes), sent, r.value) && r.value == SettledBy(sent)
      ensures r.Err? ==> sent == []
      ensures r.Ok? ==> BatchFirst(client.script, |old(client.log)|, sent)
    {
      hide *;
      NothingSent(env, local);
      sent := [];
      var items := PushItems(env, node, routes);
      if items.None? {
        return Err(EncodeError), [];
      }
      var reply := client.Call(node, false, routes, items.value);
      ghost var e := Exchange(node, false, routes, items.value, reply);
      BatchSettles(e);
      ProperBatch(env, local, e);
      BatchIsFirst(client.script, |old(client.log)|, e, []);
      if reply.None? {
        var legacy;
        ghost var part;
        legacy, part := PushLegacyItems(env, node, items.value, routes);
        FailedBatch(multiset(routes), e, part, legacy);
        SettledConcat([e], part);
        JoinNothing(legacy);
        sent := [e] + part;
        BatchIsFirst(client.script, |old(client.log)|, e, part);
        ProperJoin(env, local, [e], part);
        assert old(client.log) + ([e] + part) == old(client.log) + [e] + part;
        return Ok(legacy), sent;
      }
      ReplyAccounting(routes, reply.value);
      var result := MergeResponse(PushResult([], [], []), routes, reply.value);
      JoinNothing(Reconciled(routes, reply.value));
      var _, missing := AcceptedAndUnreported(routes, reply.value);
      if missing == [] {
        AnsweredBatch(routes, e, [], Join(PushResult([], [], []), Reconciled(routes, reply.value)),
          PushResult([], [], []));
        assert [e] + [] == [e] && Join(result, PushResult([], [], [])) == result by {
          JoinNothing(result);
        }
        return Ok(result), [e];
      }
      var legacy;
      ghost var part;
      legacy, part := PushLegacyItems(env, node, items.value, missing);
      AnsweredBatch(routes, e, part, result, legacy);
      SettledConcat([e], part);
      sent := [e] + part;
      BatchIsFirst(client.script, |old(client.log)|, e, part);
      ProperJoin(env, local, [e], part);
      assert old(client.log) + ([e] + part) == old(client.log) + [e] + part;
      return Ok(Join(result, legacy)), sent;
    }

    lemma NothingSent(env: Envelope, local: nat)
      ensures AllProper(env, local, []) && Accounted(multiset{}, [], PushResult([], [], []))
      ensures Total(PushResult([], [], [])) == multiset{} && ExcessOf([]) == multiset{}
    {
    }

    lemma ProperBatch(env: Envelope, local: nat, e: Exchange)
      requires e.node != local && ProperItems(env, e.node, e.items) && ItemRoutes(e.items) == multiset(e.routes)
      ensures AllProper(env, local, [e])
      ensures forall item :: item in e.items ==> ProperItem(env, e.node, item)
    {
    }

    /** A batch call settles what its reply names; without a reply it settles nothing. */
    lemma BatchSettles(e: Exchange)
      requires !e.legacy
      ensures e.reply.None? ==> SettledBy([e]) == PushResult([], [], [])
      ensures e.reply.Some? ==> SettledBy([e]) == Reconciled(e.routes, e.reply.value)
    {
      SettledOne(e);
      if e.reply.Some? {
        WithNothing(e.reply.value.retryable);
      }
    }

    lemma FailedBatch(routes: multiset<RouteKey>, e: Exchange, part: seq<Exchange>, legacy: PushResult)
      requires !e.legacy && e.reply.None? && ItemRoutes(e.items) == routes
      requires Total(legacy) == routes + ExcessOf(part) && SentBy(part, true) == routes
        && SentBy(part, false) == multiset{}
      ensures Accounted(routes, [e] + part, legacy)
    {
      LogOne(e);
      LogConcat([e], part);
    }

    lemma AnsweredBatch(routes: seq<RouteKey>, e: Exchange, part: seq<Exchange>, result: PushResult, legacy: PushResult)
      requires !e.legacy && e.reply.Some? && ItemRoutes(e.items) == multiset(routes)
      requires result == Join(PushResult([], [], []), Reconciled(routes, e.reply.value))
      requires var missing := multiset(MissingPart(routes, e.reply.value));
        Total(legacy) == missing + ExcessOf(part) && SentBy(part, true) == missing && SentBy(part, false) == multiset{}
      ensures Accounted(multiset(routes), [e] + part, Join(result, legacy))
    {
      LogOne(e);
      LogConcat([e], part);
      ReplyAccounting(routes, e.reply.value);
      JoinNothing(Reconciled(routes, e.reply.value));
      assert Total(Join(result, legacy)) == Total(result) + Total(legacy);
      hide *;
      var missing := multiset(MissingPart(routes, e.reply.value));
      AddSettled(Total(result), Total(legacy), missing, multiset(routes), Excess(multiset(routes), e.reply),
        ExcessOf(part));
      assert Some(e.reply.value) == e.reply;
    }

    lemma AddSettled<T>(x: multiset<T>, y: multiset<T>, missing: multiset<T>, routes: multiset<T>, ex: multiset<T>,
        ey: multiset<T>)
      requires x + missing == routes + ex && y == missing + ey
      ensures x + y == routes + (ex + ey)
    {
      forall k: T | k in x + y || k in routes + (ex + ey) ensures (x + y)[k] == (routes + (ex + ey))[k] {
        assert (x + missing)[k] == (routes + ex)[k] && y[k] == (missing + ey)[k];
      }
    }

    /** Pushes to one node, in chunks unless the channel is a person channel. */
    method PushRemoteNode(env: Envelope, node: nat, routes: seq<RouteKey>)
        returns (r: Result<PushResult, EncodeError>, ghost sent: seq<Exchange>)
      requires client != null && node != local && OnNode(env, node, routes)
      modifies client
      ensures client.log == old(client.log) + sent && AllProper(env, local, sent)
      ensures r.Ok? <==> Encodable(env, routes)
      ensures r.Ok? ==> Accounted(multiset(routes), sent, r.value) && r.value == SettledBy(sent)
      ensures r.Ok? && |routes| == 1 ==> BatchFirst(client.script, |old(client.log)|, sent)
    {
      hide *;
      ChunkIsPositive();
      if env.person || |routes| <= CHUNK {
        WholeChunk(env, node, routes);
        r, sent := PushRemoteNodeChunk(env, node, routes);
        return;
      }
      var result, start := PushResult([], [], []), 0;
      sent := [];
      NothingSent(env, local);
      NothingSettled();
      NoChunkYet(routes);
      while start < |routes|
        invariant start <= |routes| && client.log == old(client.log) + sent && AllProper(env, local, sent)
        invariant AccountedUpTo(routes, start, sent, result) && result == SettledBy(sent)
        invariant start > 0 ==> Encodable(env, routes)
      {
        var end := if start + CHUNK > |routes| then |routes| else start + CHUNK;
        ghost var before := sent;
        var next;
        ghost var part;
        next, part := PushNextChunk(env, node, routes, start, end, result, before);
        assert old(client.log) + (before + part) == old(client.log) + before + part;
        sent := before + part;
        if next.Err? {
          return Err(EncodeError), sent;
        }
        result, start := next.value, end;
      }
      LastChunk(routes, sent, result);
      return Ok(result), sent;
    }

    /** One chunk of a longer list, added to what the chunks before it yielded. */
    method PushNextChunk(env: Envelope, node: nat, routes: seq<RouteKey>, start: nat, end: nat, result: PushResult,
        ghost before: seq<Exchange>)
        returns (r: Result<PushResult, EncodeError>, ghost part: seq<Exchange>)
      requires client != null && node != local && OnNode(env, node, routes) && !env.person
      requires start < end <= |routes| && end - start <= CHUNK
      requires AccountedUpTo(routes, start, before, result) && AllProper(env, local, before)
      requires result == SettledBy(before)
      modifies client
      ensures client.log == old(client.log) + part && AllProper(env, local, before + part)
      ensures r.Ok? <==> Encodable(env, routes)
      ensures r.Ok? ==> AccountedUpTo(routes, end, before + part, r.value) && r.value == SettledBy(before + part)
    {
      hide *;
      ChunkOf(env, node, routes, start, end);
      var one;
      one, part := PushRemoteNodeChunk(env, node, routes[start..end]);
      ProperJoin(env, local, before, part);
      if one.Err? {
        return Err(EncodeError), part;
      }
      SettledConcat(before, part);
      NextChunk(routes, start, end, before, result, part, one.value);
      return Ok(Join(result, one.value)), part;
    }

    lemma ChunkIsPositive()
      ensures CHUNK > 0
    {
    }

    lemma WholeChunk(env: Envelope, node: nat, routes: seq<RouteKey>)
      requires OnNode(env, node, routes) && (env.person || |routes| <= CHUNK)
      ensures Chunk(env, node, routes)
    {
    }

    /**
     Pushes to every node in ascending order. A node whose frames cannot be encoded fails the
     whole push, but the other nodes are still tried.
     */
    method PushRemoteNodes(env: Envelope, ghost remote: seq<RouteKey>, byNode: map<nat, seq<RouteKey>>)
        returns (r: Result<PushResult, EncodeError>, ghost sent: seq<Exchange>)
      requires client != null && Groups(byNode, remote, NodeOf)
      requires forall x :: x in remote ==> x.node != local && !IsSender(env, x)
      modifies client
      ensures client.log == old(client.log) + sent && AllProper(env, local, sent)
      ensures r.Ok? <==> Encodable(env, remote)
      ensures r.Ok? ==> Accounted(multiset(remote), sent, r.value) && r.value == SettledBy(sent)
    {
      hide *;
      var ids := Sort(byNode.Keys);
      var failed := false;
      var result := PushResult([], [], []);
      sent := [];
      NothingSent(env, local);
      NothingSettled();
      DeliveredStart(env, local, remote, byNode);
      ghost var left := byNode.Keys;
      AllNodesLeft(env, byNode, ids);
      for k: nat := 0 to |ids|
        invariant client.log == old(client.log) + sent && AllProper(env, local, sent)
        invariant left <= byNode.Keys && NodesLeft(left, ids, k)
        invariant !failed ==> Delivered(env, local, remote, left, sent, result) && result == SettledBy(sent)
        invariant failed <==> SomeFailed(env, byNode, left)
      {
        var node := ids[k];
        NextNode(left, ids, k);
        FailedMore(env, byNode, left, node);
        OneNode(env, local, remote, byNode, node);
        ghost var before := sent;
        var one;
        ghost var part;
        one, part := PushRemoteNode(env, node, byNode[node]);
        ProperJoin(env, local, before, part);
        assert old(client.log) + (before + part) == old(client.log) + before + part;
        sent := before + part;
        if one.Err? {
          failed := true;
        } else if !failed {
          DeliveredMore(env, local, remote, byNode, left, before, result, node, part, one.value);
          SettledConcat(before, part);
          result := Join(result, one.value);
        }
        left := left - {node};
      }
      NoNodesLeft(env, byNode, left, ids);
      EncodableByNode(env, remote, byNode);
      if failed {
        return Err(EncodeError), sent;
      }
      DeliveredDone(env, local, remote, sent, result);
      return Ok(result), sent;
    }

    /** The nodes that are left are those listed from k on. */
    ghost predicate NodesLeft(left: set<nat>, ids: seq<nat>, k: nat) {
      k <= |ids| && forall n: nat :: n in left <==> n in ids[k..]
    }

    /** The frames of some node that is not left cannot be encoded. */
    ghost predicate SomeFailed(env: Envelope, byNode: map<nat, seq<RouteKey>>, left: set<nat>) {
      exists n :: n in byNode && n !in left && !Encodable(env, byNode[n])
    }

    lemma NextNode(left: set<nat>, ids: seq<nat>, k: nat)
      requires StrictlyAscending(ids) && k < |ids| && NodesLeft(left, ids, k)
      ensures ids[k] in left && NodesLeft(left - {ids[k]}, ids, k + 1)
    {
      NextId(ids, k);
    }

    lemma FailedMore(env: Envelope, byNode: map<nat, seq<RouteKey>>, left: set<nat>, node: nat)
      requires node in left && node in byNode
      ensures SomeFailed(env, byNode, left - {node}) <==> SomeFailed(env, byNode, left) || !Encodable(env, byNode[node])
    {
      hide Encodable;
    }

    lemma AllNodesLeft(env: Envelope, byNode: map<nat, seq<RouteKey>>, ids: seq<nat>)
      requires forall n: nat :: n in ids <==> n in byNode
      ensures NodesLeft(byNode.Keys, ids, 0) && !SomeFailed(env, byNode, byNode.Keys)
    {
      WithNothing(ids);
    }

    lemma NoNodesLeft(env: Envelope, byNode: map<nat, seq<RouteKey>>, left: set<nat>, ids: seq<nat>)
      requires NodesLeft(left, ids, |ids|)
      ensures left == {} && (SomeFailed(env, byNode, left) <==> exists n :: n in byNode && !Encodable(env, byNode[n]))
    {
      WithNothing(ids);
    }

    lemma NextId(ids: seq<nat>, k: nat)
      requires StrictlyAscending(ids) && k < |ids|
      ensures ids[k] in ids[k..]
      ensures forall n: nat :: n in ids[k + 1..] <==> n in ids[k..] && n != ids[k]
    {
      assert ids[k..] == [ids[k]] + ids[k + 1..];
    }

    lemma OneNode(env: Envelope, local: nat, remote: seq<RouteKey>, byNode: map<nat, seq<RouteKey>>, node: nat)
      requires Groups(byNode, remote, NodeOf) && node in byNode
      requires forall x :: x in remote ==> x.node != local && !IsSender(env, x)
      ensures OnNode(env, node, byNode[node]) && node != local
    {
      GroupsMembers(byNode, remote, NodeOf, node);
      assert byNode[node][0] in byNode[node];
    }

    lemma EncodableByNode(env: Envelope, remote: seq<RouteKey>, byNode: map<nat, seq<RouteKey>>)
      requires Groups(byNode, remote, NodeOf)
      ensures Encodable(env, remote) <==> forall n :: n in byNode ==> Encodable(env, byNode[n])
    {
      forall n | n in byNode ensures forall r :: r in byNode[n] <==> r in remote && r.node == n {
        GroupsMembers(byNode, remote, NodeOf, n);
      }
      forall r | r in remote ensures NodeOf(r) in byNode && r in byNode[NodeOf(r)] {
      }
    }

    /** The part of a result that no peer has a say in: the sender's own routes and the local ones. */
    function WithoutPeers(env: Envelope, routes: seq<RouteKey>): PushResult {
      Join(PushResult([], [], RoutesAt(env, local, routes, Sender)),
        LocalResult(gateway, env, RoutesAt(env, local, routes, Here)))
    }

    /** The answer when there is no client: every remote route is to be retried. */
    method AllRetryable(ghost remote: seq<RouteKey>, byNode: map<nat, seq<RouteKey>>) returns (retryable: seq<RouteKey>)
      requires Groups(byNode, remote, NodeOf)
      ensures multiset(retryable) == multiset(remote)
    {
      hide *;
      var ids := Sort(byNode.Keys);
      retryable := [];
      ghost var left := byNode.Keys;
      GroupsCover(byNode, remote, NodeOf);
      for k := 0 to |ids|
        invariant left <= byNode.Keys && forall n: nat :: n in left <==> n in ids[k..]
        invariant multiset(retryable) + multiset(InKeys(remote, NodeOf, left)) == multiset(remote)
      {
        NextId(ids, k);
        GroupTaken(byNode, remote, NodeOf, ids[k], left);
        left := left - {ids[k]};
        AddItem(multiset(retryable), multiset(byNode[ids[k]]), multiset(InKeys(remote, NodeOf, left)),
          multiset(remote));
        retryable := retryable + byNode[ids[k]];
      }
      assert left == {};
    }

    lemma RemoteRoutes(env: Envelope, routes: seq<RouteKey>)
      ensures forall x :: x in RoutesAt(env, local, routes, Remote) ==> x.node != local && !IsSender(env, x)
    {
      KeyedMembers(routes, ByPlace(env, local), Remote);
    }

    lemma NoRemote(env: Envelope, remote: seq<RouteKey>, byNode: map<nat, seq<RouteKey>>)
      requires Groups(byNode, remote, NodeOf) && byNode == map[]
      ensures remote == [] && Encodable(env, remote) && Accounted(multiset(remote), [], PushResult([], [], []))
        && AllProper(env, local, [])
    {
      NoMembers(remote);
    }

    /** The three parts of a result hold every route, once the remote part is accounted for. */
    lemma Settled(env: Envelope, routes: seq<RouteKey>, remote: PushResult, sent: seq<Exchange>)
      requires Total(remote) == multiset(RoutesAt(env, local, routes, Remote)) + ExcessOf(sent)
      ensures Total(Join(WithoutPeers(env, routes), remote)) == multiset(routes) + ExcessOf(sent)
    {
      PlacesPartition(env, local, routes);
      hide RoutesAt, Keyed;
      OutcomesPartition(RoutesAt(env, local, routes, Here), ByOutcome(gateway, env));
    }

    lemma RetryableOnly(remote: seq<RouteKey>, retryable: seq<RouteKey>)
      requires multiset(remote) == multiset(retryable)
      ensures Total(PushResult([], retryable, [])) == multiset(retryable) == multiset(remote) + ExcessOf([])
    {
    }

    lemma AccountedTotal(routes: multiset<RouteKey>, sent: seq<Exchange>, r: PushResult)
      requires Accounted(routes, sent, r)
      ensures Total(r) == routes + ExcessOf(sent)
    {
    }

    /** A single route belongs to exactly one of the three parts. */
    lemma SingleAt(env: Envelope, routes: seq<RouteKey>, place: Place)
      requires |routes| == 1
      ensures RoutesAt(env, local, routes, place) == if PlaceOf(env, local, routes[0]) == place then routes else []
    {
      RoutesAtSnoc(env, local, [], routes[0], place);
      assert [] + [routes[0]] == routes;
    }

    lemma SingleParts(env: Envelope, routes: seq<RouteKey>)
      requires |routes| == 1
      ensures WithoutPeers(env, routes) ==
        match PlaceOf(env, local, routes[0])
        case Sender => PushResult([], [], routes)
        case Here => LocalResult(gateway, env, routes)
        case Remote => PushResult([], [], [])
      ensures RoutesAt(env, local, routes, Remote) == if PlaceOf(env, local, routes[0]) == Remote then routes else []
    {
      SingleAt(env, routes, Sender);
      SingleAt(env, routes, Here);
      SingleAt(env, routes, Remote);
      assert LocalResult(gateway, env, []) == PushResult([], [], []);
      JoinNothing(LocalResult(gateway, env, routes));
      JoinNothing(PushResult([], [], routes));
      hide PlaceOf, Keyed, RoutesAt, LocalResult, Join;
    }

    /** The short path for a single route. */
    method PushSingleRoute(env: Envelope, routes: seq<RouteKey>)
        returns (r: Result<PushResult, EncodeError>, ghost remote: PushResult, ghost sent: seq<Exchange>)
      requires |routes| == 1
      modifies client
      ensures client == null ==> sent == []
      ensures client != null ==> client.log == old(client.log) + sent && AllProper(env, local, sent)
      ensures r.Err? <==> client != null && !Encodable(env, RoutesAt(env, local, routes, Remote))
      ensures r.Ok? ==> Total(remote) == multiset(RoutesAt(env, local, routes, Remote)) + ExcessOf(sent)
      ensures r.Ok? && client == null ==>
        Total(remote) == multiset(remote.retryable) == multiset(RoutesAt(env, local, routes, Remote))
      ensures r.Ok? && client != null ==> Accounted(multiset(RoutesAt(env, local, routes, Remote)), sent, remote)
      ensures r.Ok? ==> r.value == Join(WithoutPeers(env, routes), remote)
      ensures r.Ok? && client != null ==> remote == SettledBy(sent)
      ensures r.Ok? && client == null ==> remote.accepted == [] && remote.dropped == []
      ensures r.Ok? && client != null && !IsSender(env, routes[0]) && routes[0].node != local ==>
        BatchFirst(client.script, |old(client.log)|, sent)
    {
      hide *;
      remote, sent := PushResult([], [], []), [];
      NothingSent(env, local);
      NothingSettled();
      AccountedTotal(multiset{}, [], remote);
      SingleParts(env, routes);
      RemoteRoutes(env, routes);
      NothingToEncode(env);
      SenderOrHere(env, routes[0]);
      JoinNothing(PushResult([], [], routes));
      if IsSender(env, routes[0]) {
        return Ok(PushResult([], [], routes)), remote, sent;
      }
      if routes[0].node == local {
        var result := LocalPush(gateway, env, routes);
        JoinNothing(result);
        return Ok(result), remote, sent;
      }
      if client == null {
        var result := PushResult([], routes, []);
        RetryableOnly(routes, routes);
        JoinNothing(result);
        return Ok(result), result, sent;
      }
      SingleOnNode(env, routes);
      r, sent := PushRemoteNode(env, routes[0].node, routes);
      if r.Ok? {
        remote := r.value;
        AccountedTotal(multiset(routes), sent, remote);
        JoinNothing(remote);
      }
    }

    lemma Unanswered(sent: seq<Exchange>)
      ensures (forall e :: e in sent ==> e.reply.None?) ==>
        SettledBy(sent).accepted == [] && SettledBy(sent).dropped == []
    {
      hide SettledBy;
      if forall e :: e in sent ==> e.reply.None? {
        NoAnswerSettlesNothing(sent);
      }
    }

    lemma PeerlessPart(env: Envelope, routes: seq<RouteKey>, result: PushResult)
      ensures
        result == Join(PushResult([], [], RoutesAt(env, local, routes, Sender)),
                       LocalResult(gateway, env, RoutesAt(env, local, routes, Here)))
        <==> result == WithoutPeers(env, routes)
    {
    }

    lemma NothingToEncode(env: Envelope)
      ensures Encodable(env, [])
    {
    }

    lemma SenderOrHere(env: Envelope, route: RouteKey)
      ensures PlaceOf(env, local, route).Sender? <==> IsSender(env, route)
      ensures PlaceOf(env, local, route).Here? <==> !IsSender(env, route) && route.node == local
    {
    }

    lemma SingleOnNode(env: Envelope, routes: seq<RouteKey>)
      requires |routes| == 1 && !IsSender(env, routes[0])
      ensures OnNode(env, routes[0].node, routes)
    {
    }

    method PushHere(env: Envelope, here: seq<RouteKey>, result: PushResult) returns (r: PushResult)
      ensures r == Join(result, LocalResult(gateway, env, here))
    {
      if here != [] {
        hide *;
        var localResult := LocalPush(gateway, env, here);
        r := Join(result, localResult);
      } else {
        JoinNothing(result);
        r := result;
      }
    }

    /**
     Pushes a message to its routes. The sender's own session is dropped, local routes are
     written to their connections, remote routes go to their nodes. The result holds every
     given route, and beyond them exactly what the replies report in excess of what was sent;
     each remote route goes out in exactly one batch call and at most one legacy call.
     */
    method Push(env: Envelope, routes: seq<RouteKey>)
        returns (r: Result<PushResult, EncodeError>, ghost remote: PushResult, ghost sent: seq<Exchange>)
      modifies client
      ensures client == null ==> sent == []
      ensures client != null ==> client.log == old(client.log) + sent && AllProper(env, local, sent)
      ensures r.Err? <==> client != null && !Encodable(env, RoutesAt(env, local, routes, Remote))
      ensures r.Ok? ==> Total(r.value) == multiset(routes) + ExcessOf(sent)
      ensures r.Ok? && client == null ==>
        Total(remote) == multiset(remote.retryable) == multiset(RoutesAt(env, local, routes, Remote))
      ensures r.Ok? && client != null ==> Accounted(multiset(RoutesAt(env, local, routes, Remote)), sent, remote)
      ensures r.Ok? ==> r.value == Join(WithoutPeers(env, routes), remote)
      // The peers' part under its outcomes: what the calls settle; without any answer all of it is to be retried.
      ensures r.Ok? && client != null ==> remote == SettledBy(sent)
      ensures r.Ok? && (forall e :: e in sent ==> e.reply.None?) ==> remote.accepted == [] && remote.dropped == []
      ensures r.Ok? && client != null && |routes| == 1 && !IsSender(env, routes[0]) && routes[0].node != local ==>
        BatchFirst(client.script, |old(client.log)|, sent)
    {
      hide *;
      remote, sent := PushResult([], [], []), [];
      NothingSettled();
      if |routes| == 1 {
        r, remote, sent := PushSingleRoute(env, routes);
        if r.Ok? {
          Unanswered(sent);
          Settled(env, routes, remote, sent);
        }
        return;
      }
      var dropped, here, byNode := SplitRoutes(env, local, routes);
      var result := PushResult([], [], dropped);
      result := PushHere(env, here, result);
      PeerlessPart(env, routes, result);
      ghost var remoteRoutes := RoutesAt(env, local, routes, Remote);
      RemoteRoutes(env, routes);
      if byNode == map[] {
        NoRemote(env, remoteRoutes, byNode);
        AccountedTotal(multiset(remoteRoutes), [], remote);
        JoinNothing(result);
        Settled(env, routes, remote, sent);
        NothingSent(env, local);
        return Ok(result), remote, sent;
      }
      if client == null {
        var retryable := AllRetryable(remoteRoutes, byNode);
        var undelivered := PushResult([], retryable, []);
        RetryableOnly(remoteRoutes, retryable);
        Settled(env, routes, undelivered, sent);
        return Ok(Join(result, undelivered)), undelivered, sent;
      }
      var pushed;
      pushed, sent := PushRemoteNodes(env, remoteRoutes, byNode);
      if pushed.Err? {
        return Err(EncodeError), remote, sent;
      }
      remote := pushed.value;
      Unanswered(sent);
      AccountedTotal(multiset(remoteRoutes), sent, remote);
      Settled(env, routes, remote, sent);
      return Ok(Join(result, pushed.value)), remote, sent;
    }
  }

  // ---------------------------------------------------------------- a reply in excess

  lemma {:induction false} SentContains(log: seq<Exchange>, k: nat)
    requires k < |log|
    ensures ItemRoutes(log[k].items) <= SentBy(log, log[k].legacy)
    decreases |log|
  {
    if k < |log| - 1 {
      SentContains(log[..|log| - 1], k);
    }
  }

  lemma RemoteRoute(env: Envelope, local: nat, route: RouteKey)
    requires route.node != local && !IsSender(env, route) && EncodeFor(env, route.uid).Some?
    ensures RoutesAt(env, local, [route], Remote) == [route] && Encodable(env, [route])
  {
    RoutesAtSnoc(env, local, [], route, Remote);
    assert [] + [route] == [route];
  }

  /** A reply that lists a route twice although it was sent once breaks the push's balance. */
  lemma ExcessShows(route: RouteKey, sent: seq<Exchange>, script: nat -> Option<Response>)
    requires BatchFirst(script, 0, sent) && script(0) == Some(Response(false, 0, [route, route], [], []))
    requires SentBy(sent, false) == multiset{route}
    ensures ExcessOf(sent) != multiset{}
  {
    SentContains(sent, 0);
    NoExcessExactly(sent);
    assert sent[0] in sent;
    assert Reported(sent[0].reply.value)[route] == 2;
    hide ExcessOf, SentBy, ItemRoutes, Reported;
  }

  lemma BalanceBroken(route: RouteKey, total: multiset<RouteKey>, excess: multiset<RouteKey>)
    requires total == multiset{route} + excess && excess != multiset{}
    ensures multiset{route} < total
  {
    var x :| x in excess;
    assert total[x] > multiset{route}[x];
  }

  /** A push of one remote route to a peer that reports it twice: the result holds more than was given. */
  method OverreportedRoute(route: RouteKey, gateway: Gateway, frame: Frame) returns (r: PushResult)
    ensures multiset{route} < Total(r)
  {
    var env := Envelope(false, 0, "", _ => "", _ => Some(frame));
    var client := new PeerClient(_ => Some(Response(false, 0, [route, route], [], [])));
    var push := new DeliveryPush(route.node + 1, gateway, client);
    RemoteRoute(env, push.local, route);
    assert !IsSender(env, route);
    hide *;
    var pushed;
    ghost var remote, sent;
    pushed, remote, sent := push.Push(env, [route]);
    SentOnce(multiset([route]), sent, remote);
    ExcessShows(route, sent, client.script);
    r := pushed.value;
    assert multiset([route]) == multiset{route};
    BalanceBroken(route, Total(r), ExcessOf(sent));
  }

  lemma SentOnce(routes: multiset<RouteKey>, sent: seq<Exchange>, r: PushResult)
    requires Accounted(routes, sent, r)
    ensures SentBy(sent, false) == routes
  {
  }
}
