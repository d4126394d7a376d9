/**
 The paginated local route resolver (internal/app/deliveryrouting.go:896-1058) and the loop
 that drives it page by page (internal/runtime/delivery/actor.go:178-223).
 */
module LocalResolver {
  import opened Options
  import opened Routes
  import opened Sequences

  /**
   Everything a resolution reads: the subscriber source as the pages it hands out, the
   presence table, and the resolver's settings. A cursor is the number of pages read.
   */
  datatype Config = Config(source: seq<seq<UID>>, presence: Presence, collectOffline: bool, pageSize: int)

  /** Which outside call of one ResolvePage fails, if any: the k-th page read or the lookup of its UIDs. */
  datatype Fault = NoFault | ReadFails(k: nat) | LookupFails(k: nat)

  datatype ResolveError = SourceError | AuthorityError

  /** One read of the subscriber source: the UIDs, the next cursor, and whether this was the last page. */
  function NextPage(source: seq<seq<UID>>, cursor: nat): (seq<UID>, nat, bool) {
    if cursor < |source| then (source[cursor], cursor + 1, cursor + 1 >= |source|) else ([], cursor, true)
  }

  function Rest(cfg: Config, cursor: nat): seq<UID>
    requires cursor <= |cfg.source|
  {
    Flatten(cfg.source[cursor..])
  }

  /** The UIDs that a resolution still has to expand; none once the source has been read to its end. */
  function Remaining(cfg: Config, done: bool, cursor: nat): seq<UID>
    requires cursor <= |cfg.source|
  {
    if done then [] else Rest(cfg, cursor)
  }

  function RoutesLeft(cfg: Config, done: bool, cursor: nat): seq<RouteKey>
    requires cursor <= |cfg.source|
  {
    Expand(cfg.presence, Remaining(cfg, done, cursor))
  }

  function OfflineLeft(cfg: Config, done: bool, cursor: nat): seq<UID>
    requires cursor <= |cfg.source|
  {
    Offline(cfg.presence, cfg.collectOffline, Remaining(cfg, done, cursor))
  }

  lemma RestStep(cfg: Config, cursor: nat)
    requires cursor < |cfg.source|
    ensures Rest(cfg, cursor) == cfg.source[cursor] + Rest(cfg, cursor + 1)
  {
    assert cfg.source[cursor..][1..] == cfg.source[cursor + 1..];
  }

  /** The very first outside call of a page fails. */
  predicate FailsAtOnce(cfg: Config, cursor: nat, fault: Fault) {
    fault == ReadFails(0) || (fault == LookupFails(0) && cursor < |cfg.source| && cfg.source[cursor] != [])
  }

  /** Before each source page that was read, the page had room left. */
  ghost predicate EachNeeded(cfg: Config, cursor: nat, next: nat, taken: nat, room: nat) {
    next <= |cfg.source| &&
    forall k | cursor <= k < next :: taken + |Expand(cfg.presence, Flatten(cfg.source[cursor..k]))| < room
  }

  /** What was read from the cursor on is what is no longer left. */
  lemma ReadSoFar(cfg: Config, cursor: nat, next: nat, start: seq<RouteKey>, have: seq<RouteKey>, total: seq<RouteKey>)
    requires cursor <= next <= |cfg.source|
    requires total == start + RoutesLeft(cfg, false, cursor) && have + RoutesLeft(cfg, false, next) == total
    ensures have == start + Expand(cfg.presence, Flatten(cfg.source[cursor..next]))
  {
    RestFrom(cfg, cursor, next, start);
    RestFrom(cfg, next, next, start);
    hide Expand, Flatten, Rest, RoutesLeft;
    SameFront(have, start + Expand(cfg.presence, Flatten(cfg.source[cursor..next])), RoutesLeft(cfg, false, next));
  }

  lemma NoneLeftOver(cfg: Config, done: bool, cursor: nat)
    requires cursor <= |cfg.source|
    ensures [] + OfflineLeft(cfg, done, cursor) == OfflineLeft(cfg, done, cursor)
  {
  }

  lemma RemainingIs(cfg: Config, done: bool, before: bool, cursor: nat)
    requires cursor <= |cfg.source| && !before && (done ==> Rest(cfg, cursor) != [])
    ensures Remaining(cfg, done, cursor) == Remaining(cfg, before, cursor) <==> !done
  {
  }

  lemma NothingRead(cfg: Config, cursor: nat, routes: seq<RouteKey>, room: nat)
    requires cursor <= |cfg.source|
    ensures routes == routes + Expand(cfg.presence, Flatten(cfg.source[cursor..cursor]))
    ensures EachNeeded(cfg, cursor, cursor, |routes|, room)
  {
    assert cfg.source[cursor..cursor] == [];
  }

  /** A page with room left needs the next source page, if there is one. */
  lemma NeededMore(cfg: Config, cursor: nat, at: nat, taken: nat, room: nat)
    requires cursor <= at <= |cfg.source| && (EachNeeded(cfg, cursor, at, taken, room) || at == cursor)
    ensures taken + |Expand(cfg.presence, Flatten(cfg.source[cursor..at]))| < room && at < |cfg.source| ==>
      EachNeeded(cfg, cursor, at + 1, taken, room)
    ensures at == cursor ==> EachNeeded(cfg, cursor, at, taken, room)
  {
    hide Expand, Flatten;
  }

  lemma NothingLeftAtEnd(cfg: Config, next: nat)
    requires next == |cfg.source|
    ensures RoutesLeft(cfg, true, next) == RoutesLeft(cfg, false, next)
  {
  }

  /** What is owed at a cursor, split at a later place in the source. */
  lemma RestFrom(cfg: Config, cursor: nat, reached: nat, pending: seq<RouteKey>)
    requires cursor <= reached <= |cfg.source|
    ensures pending + Expand(cfg.presence, Rest(cfg, cursor)) ==
      pending + Expand(cfg.presence, Flatten(cfg.source[cursor..reached])) + Expand(cfg.presence, Rest(cfg, reached))
    ensures RoutesLeft(cfg, false, cursor) == Expand(cfg.presence, Rest(cfg, cursor))
  {
    assert cfg.source[cursor..] == cfg.source[cursor..reached] + cfg.source[reached..];
    FlattenConcat(cfg.source[cursor..reached], cfg.source[reached..]);
    ExpandConcat(cfg.presence, Flatten(cfg.source[cursor..reached]), Rest(cfg, reached));
  }

  class ResolveToken {
    /** Routes that did not fit into earlier pages. */
    var pending: seq<RouteKey>
    /** The subscriber source has been read to its end. */
    var done: bool

    constructor ()
      ensures pending == [] && !done
    {
      pending, done := [], false;
    }

    /** The routes that later pages still have to return when the caller resumes from `cursor`. */
    function Owed(cfg: Config, cursor: nat): seq<RouteKey>
      requires cursor <= |cfg.source|
      reads this
    {
      pending + RoutesLeft(cfg, done, cursor)
    }

    /** Reads one source page into at most `room` routes; what does not fit becomes pending. */
    method ReadSourcePage(cfg: Config, cursor: nat, room: nat, lookupFails: bool)
        returns (ok: bool, page: seq<RouteKey>, offline: seq<UID>, next: nat)
      requires cursor <= |cfg.source| && pending == [] && !done
      modifies this
      ensures next == (if cursor < |cfg.source| then cursor + 1 else cursor) && (next == cursor ==> done)
      ensures ok ==> page + pending + RoutesLeft(cfg, done, next) == RoutesLeft(cfg, false, cursor)
      ensures ok ==> offline + OfflineLeft(cfg, done, next) == OfflineLeft(cfg, false, cursor)
      ensures ok ==> |page| <= room && (pending != [] ==> |page| == room)
      ensures !ok <==> lookupFails && cursor < |cfg.source| && cfg.source[cursor] != []
      ensures !ok ==> pending == [] && next == cursor + 1
      ensures done <==> cursor + 1 >= |cfg.source|
      ensures page != [] || offline != [] || pending != [] ==> next == cursor + 1 && cfg.source[cursor] != []
    {
      var (uids, after, last) := NextPage(cfg.source, cursor);
      done := last;
      ok, page, offline, next := true, [], [], after;
      if cursor < |cfg.source| {
        RestStep(cfg, cursor);
      }
      assert last ==> Rest(cfg, after) == [];
      assert Rest(cfg, cursor) == uids + Remaining(cfg, last, after);
      if uids == [] {
        assert Rest(cfg, cursor) == Remaining(cfg, last, after);
        return;
      }
      if lookupFails {
        ok := false;
        return;
      }
      ExpandConcat(cfg.presence, uids, Remaining(cfg, last, after));
      OfflineConcat(cfg.presence, cfg.collectOffline, uids, Remaining(cfg, last, after));
      page, pending, offline := ExpandPage(cfg.presence, cfg.collectOffline, uids, room);
    }

    /**
     One page. Its routes followed by what is still owed are exactly what was owed before; the
     same holds of the offline UIDs. What was read is on the page or pending, routes are pending
     only behind a full page, and no source page is read for a page that is full already. A page
     that is not the last one is full or reports somebody offline. A failing call returns nothing,
     and it leaves the debt unchanged if and only if no pending route had been taken into the lost
     page and the failing lookup was not the one of the last source page. That is for a source that
     goes by the cursor; one that keeps its own position has moved to `reached`, and from there on
     it no longer hands out the pages in between.
     */
    method ResolvePage(cfg: Config, cursor: nat, limit: int, fault: Fault) returns (r: Result<Page, ResolveError>,
        next: nat, ghost reached: nat)
      requires cursor <= |cfg.source|
      modifies this
      ensures cursor <= next <= |cfg.source| && (old(done) ==> done)
      ensures r.Ok? ==> r.value.routes + Owed(cfg, next) == old(Owed(cfg, cursor))
      ensures r.Ok? ==> r.value.offline + OfflineLeft(cfg, done, next) == OfflineLeft(cfg, old(done), cursor)
      ensures r.Ok? ==> |r.value.routes| <= EffectiveLimit(limit, cfg.pageSize)
      ensures r.Ok? ==>
        |r.value.routes| <= if limit > 0 then limit else if cfg.pageSize > 0 then cfg.pageSize else 128
      ensures r.Ok? ==> (r.value.done <==> done && pending == [])
      ensures r.Ok? && !r.value.done ==> cursor < next || (|pending| < old(|pending|) && done == old(done))
      ensures r.Ok? && !r.value.done && r.value.routes == [] ==> Flatten(cfg.source[..next]) != []
      ensures r.Ok? && !r.value.done && r.value.offline == [] ==>
        |r.value.routes| == if limit > 0 then limit else if cfg.pageSize > 0 then cfg.pageSize else 128
      ensures r.Ok? && !old(done) ==>
        r.value.routes + pending == old(pending) + Expand(cfg.presence, Flatten(cfg.source[cursor..next]))
      ensures r.Ok? && !old(done) && done ==> next == |cfg.source|
      ensures r.Ok? && pending != [] ==>
        |r.value.routes| == if limit > 0 then limit else if cfg.pageSize > 0 then cfg.pageSize else 128
      ensures r.Ok? ==> EachNeeded(cfg, cursor, next, |old(pending)|, EffectiveLimit(limit, cfg.pageSize))
      ensures r.Err? ==> next == cursor && pending == [] && !old(done) && fault != NoFault
      ensures r.Err? ==> (pending == old(pending) && Remaining(cfg, done, cursor) == Remaining(cfg, old(done), cursor)
                          <==> old(pending) == [] && !(fault.LookupFails? && cursor + fault.k + 1 == |cfg.source|))
      ensures r.Err? ==> reached <= |cfg.source| && reached == cursor + fault.k + if fault.LookupFails? then 1 else 0
      ensures r.Err? ==> (done <==> fault.LookupFails? && reached == |cfg.source|)
      ensures r.Err? ==>
        var skipped := Flatten(cfg.source[cursor..reached]);
        old(Owed(cfg, cursor)) == old(pending) + Expand(cfg.presence, skipped)
          + Expand(cfg.presence, Rest(cfg, reached))
      ensures FailsAtOnce(cfg, cursor, fault) && !old(done) && |old(pending)| < EffectiveLimit(limit, cfg.pageSize) ==>
        r.Err?
    {
      hide *;
      var room := EffectiveLimit(limit, cfg.pageSize);
      RoomOfPage(limit, cfg.pageSize);
      NothingRead(cfg, cursor, pending, room);
      OwedIs(cfg, cursor);
      var page := TakePending(room);
      if page != [] && (|page| == room || done) {
        Regroup(page, pending, RoutesLeft(cfg, done, cursor));
        OwedIs(cfg, cursor);
        NoneLeftOver(cfg, done, cursor);
        return Ok(Page(page, [], done && pending == [])), cursor, cursor;
      }
      var offline, failed;
      page, offline, next, failed := FillPage(cfg, cursor, page, room, fault);
      reached := next;
      OwedIs(cfg, next);
      if failed.Some? {
        RestFrom(cfg, cursor, reached, old(pending));
        RemainingIs(cfg, done, old(done), cursor);
        return Err(failed.value), cursor, reached;
      }
      Regroup(page, pending, RoutesLeft(cfg, done, next));
      return Ok(Page(page, offline, done && pending == [])), next, next;
    }

    /** Takes pending routes into a page, as many as there is room for. */
    method TakePending(room: nat) returns (page: seq<RouteKey>)
      modifies `pending
      ensures page + pending == old(pending) && |page| == if room > |old(pending)| then |old(pending)| else room
    {
      var taken := if room > |pending| then |pending| else room;
      page := pending[..taken];
      pending := pending[taken..];
    }

    lemma OwedIs(cfg: Config, cursor: nat)
      requires cursor <= |cfg.source|
      ensures Owed(cfg, cursor) == pending + RoutesLeft(cfg, done, cursor)
    {
    }

    /** The page loop: reads source pages until the page is full, a UID was offline, or the source ends. */
    method FillPage(cfg: Config, cursor: nat, start: seq<RouteKey>, room: nat, fault: Fault)
        returns (page: seq<RouteKey>, offline: seq<UID>, next: nat, failed: Option<ResolveError>)
      requires cursor <= |cfg.source| && pending == [] && |start| < room
      modifies this
      ensures cursor <= next <= |cfg.source| && |page| <= room && (old(done) ==> done)
      ensures failed.None? ==>
        page + pending + RoutesLeft(cfg, done, next) == start + RoutesLeft(cfg, old(done), cursor)
      ensures failed.None? ==> offline + OfflineLeft(cfg, done, next) == OfflineLeft(cfg, old(done), cursor)
      ensures failed.None? && !old(done) ==>
        page + pending == start + Expand(cfg.presence, Flatten(cfg.source[cursor..next]))
      ensures failed.None? && pending != [] ==> |page| == room
      ensures failed.None? && !(done && pending == []) && offline == [] ==> |page| == room
      ensures failed.None? && !old(done) && done ==> next == |cfg.source|
      ensures failed.None? && !old(done) ==> EachNeeded(cfg, cursor, next, |start|, room)
      ensures failed.None? && old(done) ==> next == cursor && page == start
      ensures failed.None? && !(done && pending == []) ==> cursor < next
      ensures failed.None? && !(done && pending == []) && page == [] ==> Flatten(cfg.source[..next]) != []
      ensures failed.Some? ==> pending == [] && !old(done) && fault != NoFault
      ensures failed.Some? ==> (done <==> fault.LookupFails? && cursor + fault.k + 1 == |cfg.source|)
      ensures failed.Some? && done ==> Rest(cfg, cursor) != []
      ensures failed.Some? ==> next == cursor + fault.k + if fault.LookupFails? then 1 else 0
      ensures FailsAtOnce(cfg, cursor, fault) && !old(done) ==> failed.Some?
    {
      hide Expand, Offline, Flatten, RoutesLeft, OfflineLeft, Rest, EachNeeded;
      page, offline, next, failed := start, [], cursor, None;
      if done {
        return;
      }
      var more := true;
      ghost var total, offlineTotal := start + RoutesLeft(cfg, false, cursor), OfflineLeft(cfg, false, cursor);
      assert start + [] + RoutesLeft(cfg, false, cursor) == total && [] + offlineTotal == offlineTotal;
      NeededMore(cfg, cursor, cursor, |start|, room);
      while more && |page| < room
        invariant cursor <= next <= |cfg.source| && |page| <= room
        invariant more ==> pending == [] && !done
        invariant page + pending + RoutesLeft(cfg, done, next) == total
        invariant more ==> page + RoutesLeft(cfg, false, next) == total
        invariant offline + OfflineLeft(cfg, done, next) == offlineTotal
        invariant next == cursor ==> (more && page == start) || (done && pending == [])
        invariant !more && page == [] && !(done && pending == []) ==> Flatten(cfg.source[..next]) != []
        invariant FailsAtOnce(cfg, cursor, fault) ==> next == cursor && more && page == start
        invariant more || done || |page| == room || offline != []
        invariant (pending != [] ==> |page| == room) && (done ==> next == |cfg.source|)
        invariant EachNeeded(cfg, cursor, next, |start|, room)
        decreases more, |cfg.source| - next
      {
        if fault == ReadFails(next - cursor) {
          failed := Some(SourceError);
          return;
        }
        ghost var at, before, offlineBefore := next, page, offline;
        ReadSoFar(cfg, cursor, at, start, page, total);
        NeededMore(cfg, cursor, at, |start|, room);
        var ok, routes, newOffline;
        ok, routes, newOffline, next := ReadSourcePage(cfg, next, room - |page|, fault == LookupFails(next - cursor));
        if !ok {
          RestNotEmpty(cfg, cursor, at);
          failed := Some(AuthorityError);
          return;
        }
        page, offline := page + routes, offline + newOffline;
        Carry(before, routes, pending, RoutesLeft(cfg, done, next), RoutesLeft(cfg, false, at), total);
        Carry(offlineBefore, newOffline, [], OfflineLeft(cfg, done, next), OfflineLeft(cfg, false, at), offlineTotal);
        if pending != [] || done || newOffline != [] {
          if newOffline != [] || pending != [] {
            ReadSomething(cfg, at);
          }
          more := false;
        }
      }
      if done {
        NothingLeftAtEnd(cfg, next);
      }
      ReadSoFar(cfg, cursor, next, start, page + pending, total);
    }
  }

  /** A page that was read with UIDs on it is part of what was owed at every earlier cursor. */
  lemma {:induction false} RestNotEmpty(cfg: Config, cursor: nat, at: nat)
    requires cursor <= at < |cfg.source| && cfg.source[at] != []
    ensures Rest(cfg, cursor) != []
    decreases at - cursor
  {
    RestStep(cfg, cursor);
    if cursor < at {
      RestNotEmpty(cfg, cursor + 1, at);
    }
  }

  lemma ReadSomething(cfg: Config, at: nat)
    requires at < |cfg.source| && cfg.source[at] != []
    ensures Flatten(cfg.source[..at + 1]) != []
  {
    FlattenConcat(cfg.source[..at], [cfg.source[at]]);
    assert cfg.source[..at + 1] == cfg.source[..at] + [cfg.source[at]];
    assert Flatten([cfg.source[at]]) == cfg.source[at] + Flatten([cfg.source[at]][1..]);
  }

  lemma WholeSource(cfg: Config)
    ensures RoutesLeft(cfg, false, 0) == Expand(cfg.presence, Flatten(cfg.source))
    ensures OfflineLeft(cfg, false, 0) == Offline(cfg.presence, cfg.collectOffline, Flatten(cfg.source))
    ensures forall next | 0 <= next <= |cfg.source| ::
      RoutesLeft(cfg, true, next) == [] && OfflineLeft(cfg, true, next) == []
  {
    assert cfg.source[0..] == cfg.source;
  }

  /**
   Drives a fresh token to Done, with any page limit at every call. The pages concatenate to
   the in-order expansion of every subscriber, and the loop ends.
   */
  method Drive(cfg: Config, limits: nat -> int) returns (pages: seq<Page>, routes: seq<RouteKey>, offline: seq<UID>)
    ensures routes == Expand(cfg.presence, Flatten(cfg.source))
    ensures offline == Offline(cfg.presence, cfg.collectOffline, Flatten(cfg.source))
    ensures PagesOfDrive(pages, limits, cfg.pageSize) && pages != [] && pages[|pages| - 1].done
    ensures forall i | 0 <= i < |pages| && limits(i) > 0 :: |pages[i].routes| <= limits(i)
  {
    hide *;
    WholeSource(cfg);
    var token := new ResolveToken();
    var cursor := 0;
    var resolved := false;
    pages, routes, offline := [], [], [];
    ghost var total, offlineTotal := RoutesLeft(cfg, false, 0), OfflineLeft(cfg, false, 0);
    token.OwedIs(cfg, 0);
    WithNothing(total);
    AllDelivered(routes, total);
    AllDelivered(offline, offlineTotal);
    NoPageYet(limits, cfg.pageSize);
    while !resolved
      invariant cursor <= |cfg.source|
      invariant Conserved(routes, token.Owed(cfg, cursor), total)
      invariant Conserved(offline, OfflineLeft(cfg, token.done, cursor), offlineTotal)
      invariant PagesOfDrive(pages, limits, cfg.pageSize)
      invariant if resolved then token.done && token.pending == [] && pages != [] && pages[|pages| - 1].done
                else pages != [] ==> !pages[|pages| - 1].done
      decreases !resolved, |cfg.source| - cursor, |token.pending|
    {
      ghost var owed, offlineOwed := token.Owed(cfg, cursor), OfflineLeft(cfg, token.done, cursor);
      var r, next, _ := token.ResolvePage(cfg, cursor, limits(|pages|), NoFault);
      var page := r.value;
      // The driver also gives up on an empty page before any UID was read; that never happens here.
      var stalled := !page.done && page.routes == [] && Flatten(cfg.source[..next]) == [];
      DeliverMore(routes, owed, total, page.routes, token.Owed(cfg, next));
      DeliverMore(offline, offlineOwed, offlineTotal, page.offline, OfflineLeft(cfg, token.done, next));
      OneMorePage(pages, limits, cfg.pageSize, page);
      pages, routes, offline := pages + [page], routes + page.routes, offline + page.offline;
      cursor, resolved := next, page.done || stalled;
    }
    OwnLimitsAreKept(pages, limits, cfg.pageSize);
    token.OwedIs(cfg, cursor);
    WithNothing<RouteKey>([]);
    AllDelivered(routes, total);
    AllDelivered(offline, offlineTotal);
  }

  // ---------------------------------------------------------------- what a failing call loses

  lemma OneSubscriber(cfg: Config, route: RouteKey)
    requires cfg.source == [["a"]] && cfg.presence("a") == [route]
    ensures Expand(cfg.presence, Flatten(cfg.source)) == [route]
  {
    assert cfg.source[1..] == [];
    assert Flatten(cfg.source) == ["a"] + [];
    assert Expand(cfg.presence, ["a"]) == [route] + Expand(cfg.presence, ["a"][1..]);
  }

  /** The lookup of the last source page fails: the retry says done, and the subscriber's route was never returned. */
  method FailedLookupLosesRoutes(route: RouteKey) returns (cfg: Config, failed: Result<Page, ResolveError>,
      retried: Result<Page, ResolveError>)
    ensures Expand(cfg.presence, Flatten(cfg.source)) == [route]
    ensures failed.Err? && retried == Ok(Page([], [], true))
  {
    cfg := Config([["a"]], _ => [route], false, 128);
    OneSubscriber(cfg, route);
    var token := new ResolveToken();
    var next;
    ghost var reached;
    failed, next, reached := token.ResolvePage(cfg, 0, 1, LookupFails(0));
    assert token.Owed(cfg, 0) == [] && OfflineLeft(cfg, true, 0) == [];
    hide Expand, Flatten;
    retried, next, reached := token.ResolvePage(cfg, next, 1, NoFault);
    assert retried.value.routes + token.Owed(cfg, next) == [];
  }

  lemma TwoRoutes(cfg: Config, r1: RouteKey, r2: RouteKey)
    requires cfg.source == [["a"], ["b"]] && cfg.presence("a") == [r1, r2]
    ensures Expand(cfg.presence, Flatten(cfg.source[0..1])) == [r1, r2]
    ensures Flatten(cfg.source[1..1]) == [] && Expand(cfg.presence, Flatten(cfg.source[1..1])) == []
  {
    var first := cfg.source[0..1];
    assert first == [["a"]] && first[1..] == [];
    assert Flatten(first) == ["a"] + [];
    assert Expand(cfg.presence, ["a"]) == [r1, r2] + Expand(cfg.presence, ["a"][1..]);
  }

  /** A page with room for one of the two routes stops behind the first source page and keeps the other route. */
  lemma FirstPage(cfg: Config, page: seq<RouteKey>, pending: seq<RouteKey>, done: bool, next: nat, r1: RouteKey,
      r2: RouteKey)
    requires cfg.source == [["a"], ["b"]] && cfg.presence("a") == [r1, r2]
    requires EachNeeded(cfg, 0, next, 0, 1) && |page| <= 1 && (pending != [] ==> |page| == 1)
    requires page + pending == [] + Expand(cfg.presence, Flatten(cfg.source[0..next]))
    requires (done ==> next == 2) && (!(done && pending == []) ==> 0 < next)
    ensures next == 1 && !done && page == [r1] && pending == [r2]
  {
    TwoRoutes(cfg, r1, r2);
    hide Expand, Flatten;
    assert next <= 1;
    assert |page + pending| == 2 && (page + pending)[0] == r1 && (page + pending)[1] == r2;
  }

  /**
   A subscriber is online twice and pages hold one route. The first page returns one of the two
   routes and keeps the other pending; the second call takes it, reads on and fails. The pending
   route is owed no more, although no page returned it.
   */
  method FailedReadLosesPending(r1: RouteKey, r2: RouteKey) returns (cfg: Config, first: Result<Page, ResolveError>,
      failed: Result<Page, ResolveError>, ghost before: seq<RouteKey>, ghost after: seq<RouteKey>)
    ensures first.Ok? && first.value.routes == [r1] && !first.value.done
    ensures failed.Err? && before == [r2] + after
  {
    cfg := Config([["a"], ["b"]], uid => if uid == "a" then [r1, r2] else [], false, 128);
    var token := new ResolveToken();
    TwoRoutes(cfg, r1, r2);
    hide Expand, Flatten, Offline;
    var next;
    ghost var reached;
    first, next, reached := token.ResolvePage(cfg, 0, 1, NoFault);
    FirstPage(cfg, first.value.routes, token.pending, token.done, next, r1, r2);
    before := token.Owed(cfg, next);
    failed, next, reached := token.ResolvePage(cfg, next, 2, ReadFails(0));
    after := token.Owed(cfg, next);
  }
}
