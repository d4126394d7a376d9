/** Delivery routes and the expansion of subscriber UIDs through the presence table. */
module Routes {
  import opened Sequences

  type UID = string

  datatype RouteKey = RouteKey(uid: UID, node: nat, boot: nat, session: nat)

  /** The authoritative endpoints of each UID; none for a UID that is offline. */
  type Presence = UID -> seq<RouteKey>

  function Flatten<T>(pages: seq<seq<T>>): seq<T> {
    if pages == [] then [] else pages[0] + Flatten(pages[1..])
  }

  lemma {:induction false} FlattenConcat<T>(a: seq<seq<T>>, b: seq<seq<T>>)
    ensures Flatten(a + b) == Flatten(a) + Flatten(b)
  {
    if a == [] {
      assert a + b == b;
    } else {
      assert (a + b)[1..] == a[1..] + b;
      FlattenConcat(a[1..], b);
    }
  }

  /** The routes of all UIDs, in order. */
  function Expand(presence: Presence, uids: seq<UID>): seq<RouteKey> {
    if uids == [] then [] else presence(uids[0]) + Expand(presence, uids[1..])
  }

  lemma {:induction false} ExpandConcat(presence: Presence, a: seq<UID>, b: seq<UID>)
    ensures Expand(presence, a + b) == Expand(presence, a) + Expand(presence, b)
  {
    if a == [] {
      assert a + b == b;
    } else {
      assert (a + b)[1..] == a[1..] + b;
      ExpandConcat(presence, a[1..], b);
    }
  }

  /** The UIDs without a route, in order, when the resolver collects them. */
  function Offline(presence: Presence, collect: bool, uids: seq<UID>): seq<UID> {
    if uids == [] then []
    else (if collect && presence(uids[0]) == [] then [uids[0]] else []) + Offline(presence, collect, uids[1..])
  }

  lemma {:induction false} OfflineConcat(presence: Presence, collect: bool, a: seq<UID>, b: seq<UID>)
    ensures Offline(presence, collect, a + b) == Offline(presence, collect, a) + Offline(presence, collect, b)
  {
    if a == [] {
      assert a + b == b;
    } else {
      assert (a + b)[1..] == a[1..] + b;
      OfflineConcat(presence, collect, a[1..], b);
    }
  }

  ghost predicate Distinct<T>(s: seq<T>) {
    forall i, j | 0 <= i < j < |s| :: s[i] != s[j]
  }

  /** Offline UIDs are exactly the UIDs without a route, and distinct UIDs are reported once each. */
  lemma {:induction false} OfflineExactlyOnce(presence: Presence, uids: seq<UID>)
    requires Distinct(uids)
    ensures Distinct(Offline(presence, true, uids))
    ensures forall u :: u in Offline(presence, true, uids) <==> u in uids && presence(u) == []
    ensures Offline(presence, false, uids) == []
  {
    if uids != [] {
      OfflineExactlyOnce(presence, uids[1..]);
      assert uids[0] !in uids[1..];
    }
  }

  /** One UID moved to the front. */
  lemma ExpandMoved(presence: Presence, b: seq<UID>, k: nat)
    requires k < |b|
    ensures multiset(Expand(presence, b)) == multiset(presence(b[k])) + multiset(Expand(presence, b[..k] + b[k + 1..]))
  {
    assert b == b[..k] + ([b[k]] + b[k + 1..]);
    assert [b[k]][1..] == [];
    assert Expand(presence, [b[k]]) == presence(b[k]) + [];
    ExpandConcat(presence, b[..k], [b[k]] + b[k + 1..]);
    ExpandConcat(presence, [b[k]], b[k + 1..]);
    ExpandConcat(presence, b[..k], b[k + 1..]);
    hide Expand;
  }

  /** Taking the same element out of two permuted lists leaves permuted lists. */
  lemma PermutedWithout(a: seq<UID>, b: seq<UID>) returns (k: nat)
    requires a != [] && multiset(a) == multiset(b)
    ensures k < |b| && b[k] == a[0] && multiset(a[1..]) == multiset(b[..k] + b[k + 1..])
  {
    WithoutFirst(a);
    k := Place(a[0], b);
    WithoutPlace(b, k);
  }

  lemma Place<T>(x: T, s: seq<T>) returns (k: nat)
    requires x in multiset(s)
    ensures k < |s| && s[k] == x
  {
    k :| 0 <= k < |s| && s[k] == x;
  }

  lemma WithoutFirst<T>(s: seq<T>)
    requires s != []
    ensures s[0] in multiset(s) && multiset(s[1..]) == multiset(s) - multiset{s[0]}
  {
    FirstApart(s);
  }

  lemma WithoutPlace<T>(s: seq<T>, k: nat)
    requires k < |s|
    ensures multiset(s[..k] + s[k + 1..]) == multiset(s) - multiset{s[k]}
  {
    OneApart(s, k);
  }

  /** Listing the same UIDs in another order yields the same routes, up to order. */
  lemma {:induction false} ExpandPermuted(presence: Presence, a: seq<UID>, b: seq<UID>)
    requires multiset(a) == multiset(b)
    ensures multiset(Expand(presence, a)) == multiset(Expand(presence, b))
    decreases |a|
  {
    if a == [] {
      assert |b| == |multiset(b)| == 0;
    } else {
      var k := PermutedWithout(a, b);
      hide *;
      ExpandPermuted(presence, a[1..], b[..k] + b[k + 1..]);
      ExpandMoved(presence, a, 0);
      ExpandMoved(presence, b, k);
      assert a[..0] + a[1..] == a[1..];
    }
  }

  datatype Page = Page(routes: seq<RouteKey>, offline: seq<UID>, done: bool)

  /** A page limit that is not positive falls back to the resolver's page size, then to 128. */
  function EffectiveLimit(limit: int, pageSize: int): (n: nat)
    ensures n > 0
  {
    if limit > 0 then limit else EffectivePageSize(pageSize)
  }

  function EffectivePageSize(pageSize: int): (n: nat)
    ensures n > 0
  {
    if pageSize > 0 then pageSize else 128
  }

  /** The room of a page: its own limit when that is positive, else the page size, else 128. */
  lemma RoomOfPage(limit: int, pageSize: int)
    ensures limit > 0 ==> EffectiveLimit(limit, pageSize) == limit
    ensures limit <= 0 < pageSize ==> EffectiveLimit(limit, pageSize) == pageSize
    ensures limit <= 0 && pageSize <= 0 ==> EffectiveLimit(limit, pageSize) == 128
  {
  }

  /** Appends the endpoints of one UID to the page while there is room and spills the rest. */
  method AppendResolved(page: seq<RouteKey>, overflow: seq<RouteKey>, routes: seq<RouteKey>, room: nat)
      returns (page': seq<RouteKey>, overflow': seq<RouteKey>, room': nat)
    requires room > 0 ==> overflow == []
    ensures page' + overflow' == page + overflow + routes
    ensures page <= page' && |page'| + room' == |page| + room
    ensures room' > 0 ==> overflow' == []
  {
    page', overflow', room' := page, overflow, room;
    for k := 0 to |routes|
      invariant page' + overflow' == page + overflow + routes[..k]
      invariant page <= page' && |page'| + room' == |page| + room
      invariant room' > 0 ==> overflow' == []
    {
      assert routes[..k + 1] == routes[..k] + [routes[k]];
      assert (page' + overflow') + [routes[k]] == page + overflow + routes[..k + 1];
      if room' > 0 {
        page', room' := page' + [routes[k]], room' - 1;
      } else {
        assert page' + (overflow' + [routes[k]]) == (page' + overflow') + [routes[k]];
        overflow' := overflow' + [routes[k]];
      }
    }
    assert routes[..|routes|] == routes;
  }

  /** Expands one page of UIDs into at most `room` routes, the routes that did not fit, and the offline UIDs. */
  method ExpandPage(presence: Presence, collect: bool, uids: seq<UID>, room: nat)
      returns (page: seq<RouteKey>, overflow: seq<RouteKey>, offline: seq<UID>)
    ensures page + overflow == Expand(presence, uids)
    ensures offline == Offline(presence, collect, uids)
    ensures |page| <= room && (overflow != [] ==> |page| == room)
  {
    page, overflow, offline := [], [], [];
    var left := room;
    for k := 0 to |uids|
      invariant page + overflow == Expand(presence, uids[..k])
      invariant offline == Offline(presence, collect, uids[..k])
      invariant |page| + left == room && (left > 0 ==> overflow == [])
    {
      assert uids[..k + 1] == uids[..k] + [uids[k]];
      ExpandConcat(presence, uids[..k], [uids[k]]);
      OfflineConcat(presence, collect, uids[..k], [uids[k]]);
      var routes := presence(uids[k]);
      assert Expand(presence, [uids[k]]) == routes;
      if routes == [] && collect {
        offline := offline + [uids[k]];
      }
      page, overflow, left := AppendResolved(page, overflow, routes, left);
    }
    assert uids[..|uids|] == uids;
  }

  /** What is added to a page, what spills over it and what is left replace what was left before. */
  lemma Carry<T>(page: seq<T>, added: seq<T>, spilled: seq<T>, left': seq<T>, left: seq<T>, total: seq<T>)
    requires added + spilled + left' == left && page + left == total
    ensures (page + added) + spilled + left' == total
    ensures spilled == [] ==> (page + added) + left' == total
  {
    assert (page + added) + spilled + left' == page + (added + spilled + left');
  }

  /** Every page keeps the limit of its call, and only the last one may say that it is done. */
  ghost predicate PagesOfDrive(pages: seq<Page>, limits: nat -> int, pageSize: int) {
    && (forall i | 0 <= i < |pages| :: |pages[i].routes| <= EffectiveLimit(limits(i), pageSize))
    && (forall i | 0 <= i < |pages| - 1 :: !pages[i].done)
  }

  /** Pages with a limit of their own keep it. */
  lemma OwnLimitsAreKept(pages: seq<Page>, limits: nat -> int, pageSize: int)
    requires PagesOfDrive(pages, limits, pageSize)
    ensures forall i | 0 <= i < |pages| && limits(i) > 0 :: |pages[i].routes| <= limits(i)
  {
    forall i | 0 <= i < |pages| && limits(i) > 0 ensures |pages[i].routes| <= limits(i) {
      RoomOfPage(limits(i), pageSize);
    }
    hide EffectiveLimit;
  }

  lemma NoPageYet(limits: nat -> int, pageSize: int)
    ensures PagesOfDrive([], limits, pageSize)
  {
  }

  lemma OneMorePage(pages: seq<Page>, limits: nat -> int, pageSize: int, page: Page)
    requires PagesOfDrive(pages, limits, pageSize) && (pages != [] ==> !pages[|pages| - 1].done)
    requires |page.routes| <= EffectiveLimit(limits(|pages|), pageSize)
    ensures PagesOfDrive(pages + [page], limits, pageSize) && (pages + [page])[|pages|] == page
  {
  }

  /** What was delivered, followed by what is still owed, is everything. */
  ghost predicate Conserved<T>(delivered: seq<T>, owed: seq<T>, total: seq<T>) {
    delivered + owed == total
  }

  lemma DeliverMore<T>(delivered: seq<T>, owed: seq<T>, total: seq<T>, page: seq<T>, left: seq<T>)
    requires Conserved(delivered, owed, total) && page + left == owed
    ensures Conserved(delivered + page, left, total)
  {
    assert delivered + (page + left) == delivered + page + left;
  }

  lemma AllDelivered<T>(delivered: seq<T>, total: seq<T>)
    ensures Conserved(delivered, [], total) <==> delivered == total
    ensures Conserved([], total, total)
  {
    assert delivered + [] == delivered && [] + total == total;
  }
}
