/**
 The subscriber source that both resolvers read (internal/usecase/delivery/subscriber.go:243-375).
 It hands out an overlay first and then the channel's stored subscribers, page by page, each UID
 once; a store that lists nobody is asked for a snapshot instead. What it hands out meets what
 the resolvers need: no repetition, and no empty page before the last one.
 */
module SubscriberSource {
  import opened Division
  import opened Routes
  import opened Sequences
  import opened TagResolver
  import LocalResolver

  /**
   The channel's store. The k-th answer hands out at most cut(k) of the listed subscribers, at
   least one while there is any, and may be late to say that the list is at its end.
   */
  datatype Store = Store(listed: seq<UID>, snapshot: seq<UID>, cut: nat -> nat, late: nat -> bool)
  {
    /** The end of the k-th answer, for a reader at pos that asks for at most max subscribers. */
    function End(k: nat, pos: nat, max: nat): (end: nat)
      requires pos <= |listed| && 0 < max
      ensures pos <= end <= |listed| && end - pos <= max && (end == pos ==> pos == |listed|)
    {
      var want := if cut(k) == 0 then 1 else if cut(k) < max then cut(k) else max;
      if pos + want < |listed| then pos + want else |listed|
    }

    /** Whether the k-th answer says that it is the last one; an empty answer at the end of the list does. */
    predicate Ends(k: nat, pos: nat, end: nat): (last: bool)
      ensures last ==> end == |listed|
      ensures end == pos == |listed| ==> last
    {
      end == |listed| && (end == pos || !late(k))
    }
  }

  // ---------------------------------------------------------------- lists without repetition

  ghost function Elements(s: seq<UID>): set<UID> {
    set u | u in s
  }

  /** The UIDs that have not been seen, in order. */
  function Keep(s: seq<UID>, seen: set<UID>): seq<UID> {
    if s == [] then [] else (if s[0] in seen then [] else [s[0]]) + Keep(s[1..], seen)
  }

  lemma {:induction false} KeepConcat(a: seq<UID>, b: seq<UID>, seen: set<UID>)
    ensures Keep(a + b, seen) == Keep(a, seen) + Keep(b, seen)
  {
    if a == [] {
      assert a + b == b;
    } else {
      assert (a + b)[1..] == a[1..] + b;
      KeepConcat(a[1..], b, seen);
    }
  }

  lemma {:induction false} KeepElements(s: seq<UID>, seen: set<UID>)
    ensures forall u :: u in Keep(s, seen) <==> u in s && u !in seen
    ensures Distinct(s) ==> Distinct(Keep(s, seen))
  {
    if s != [] {
      KeepElements(s[1..], seen);
      if Distinct(s) {
        assert s[0] !in s[1..];
      }
    }
  }

  lemma {:induction false} KeepAll(s: seq<UID>)
    ensures Keep(s, {}) == s
  {
    if s != [] {
      KeepAll(s[1..]);
    }
  }

  lemma UniqueSnoc(s: seq<UID>, x: UID)
    ensures Unique(s + [x]) == if x == "" || x in Unique(s) then Unique(s) else Unique(s) + [x]
  {
    assert (s + [x])[..|s|] == s;
  }

  lemma KeepSnoc(s: seq<UID>, x: UID, seen: set<UID>)
    ensures Keep(s + [x], seen) == Keep(s, seen) + if x in seen then [] else [x]
  {
    KeepConcat(s, [x], seen);
    assert [x][1..] == [];
  }

  /** Two lists without their repetitions: the first one, and what is new in the second. */
  lemma {:induction false} UniqueConcat(a: seq<UID>, b: seq<UID>)
    ensures Unique(a + b) == Unique(a) + Keep(Unique(b), Elements(Unique(a)))
    decreases |b|
  {
    if b == [] {
      assert a + b == a;
    } else {
      var init, x := b[..|b| - 1], b[|b| - 1];
      assert b == init + [x] && a + b == (a + init) + [x];
      UniqueConcat(a, init);
      UniqueSnoc(a + init, x);
      UniqueSnoc(init, x);
      KeepElements(Unique(init), Elements(Unique(a)));
      hide Unique, Keep;
      KeepSnoc(Unique(init), x, Elements(Unique(a)));
      assert Unique(a) + (Keep(Unique(init), Elements(Unique(a))) + [x])
        == Unique(a) + Keep(Unique(init), Elements(Unique(a))) + [x];
    }
  }

  // ---------------------------------------------------------------- what is handed out

  /** The index after the first occurrence of the cursor string, or the start. */
  function IndexAfter(uids: seq<UID>, cursor: UID): (i: nat)
    ensures i <= |uids|
    ensures cursor == "" || cursor !in uids ==> i == 0
    ensures cursor != "" && cursor in uids ==> i > 0 && uids[i - 1] == cursor && cursor !in uids[..i - 1]
  {
    if cursor == "" || cursor !in uids then 0
    else
      assert uids != [];
      if uids[0] == cursor then 1
      else
        assert uids == [uids[0]] + uids[1..];
        var i := IndexAfter(uids[1..], cursor) + 1;
        assert uids[..i - 1] == [uids[0]] + uids[1..][..i - 2];
        i
  }

  /** Everybody that the source should hand out. */
  function Subscribers(overlay: seq<UID>, store: Store): seq<UID> {
    Unique(overlay + if store.listed == [] then store.snapshot else store.listed)
  }

  /** How many UIDs of an overlay of n stand on pages that it fills alone. */
  function OnFullPages(n: nat, limit: nat): (k: nat)
    requires limit > 0
    ensures k <= n
  {
    n - n % limit
  }

  /**
   Where the snapshot of a store that lists nobody is entered, when every page has the same
   limit: after the last UID of the pages that the overlay alone had filled.
   */
  function SnapshotEntry(overlay: seq<UID>, store: Store, limit: nat): (i: nat)
    requires limit > 0
    ensures i <= |Unique(store.snapshot)|
  {
    var o := Unique(overlay);
    IndexAfter(Unique(store.snapshot), CursorAfter(o[..OnFullPages(|o|, limit)]))
  }

  /** What the source hands out in all. */
  ghost function HandedOut(overlay: seq<UID>, store: Store, limit: nat): seq<UID>
    requires limit > 0
  {
    if store.listed != [] then Unique(overlay + store.listed)
    else
      Unique(overlay)
      + Keep(Unique(store.snapshot)[SnapshotEntry(overlay, store, limit)..], Elements(Unique(overlay)))
  }

  /**
   Exactly when nobody is left out: when the store lists its subscribers, or its snapshot has
   nobody new before the place where it is entered. A fixed list never leaves anybody out.
   */
  lemma NobodyLeftOutExactly(overlay: seq<UID>, store: Store, limit: nat)
    requires limit > 0
    ensures HandedOut(overlay, store, limit) == Subscribers(overlay, store)
            <==> store.listed != []
                 || forall u ::
                   u in Unique(store.snapshot)[..SnapshotEntry(overlay, store, limit)] ==> u in Unique(overlay)
  {
    if store.listed == [] {
      hide Unique, Keep, SnapshotEntry, Elements;
      var i, s, o := SnapshotEntry(overlay, store, limit), Unique(store.snapshot), Unique(overlay);
      UniqueConcat(overlay, store.snapshot);
      CutApart(s, 0, i);
      WithNothing(s);
      FromStart(s, i);
      ElementsOf(o);
      KeepConcat(s[..i], s[i..], Elements(o));
      KeepElements(s[..i], Elements(o));
      SameExactlyIfNothing(o, Keep(s[..i], Elements(o)), Keep(s[i..], Elements(o)));
    }
  }

  lemma FromStart<T>(s: seq<T>, i: nat)
    requires i <= |s|
    ensures s[0..i] == s[..i]
  {
  }

  lemma ElementsOf(s: seq<UID>)
    ensures forall u :: u in Elements(s) <==> u in s
  {
  }

  lemma SameExactlyIfNothing(a: seq<UID>, b: seq<UID>, c: seq<UID>)
    ensures a + c == a + (b + c) <==> forall u :: u !in b
  {
    if a + c == a + (b + c) {
      assert |a + c| == |a + (b + c)|;
    } else {
      assert b != [] && b[0] in b by {
        assert b == [] ==> b + c == c;
      }
    }
  }

  lemma SmallRemainder(n: nat, m: nat)
    requires n < m
    ensures n % m == n
  {
  }

  /** When the overlay alone fills no page, the snapshot is entered at its start. */
  lemma SmallOverlaysLoseNobody(overlay: seq<UID>, store: Store, limit: nat)
    requires limit > 0 && |Unique(overlay)| < limit
    ensures HandedOut(overlay, store, limit) == Subscribers(overlay, store)
  {
    var o := Unique(overlay);
    SmallRemainder(|o|, limit);
    assert o[..0] == [];
    assert SnapshotEntry(overlay, store, limit) == 0 by {
      hide Unique;
    }
    hide *;
    NobodyLeftOutExactly(overlay, store, limit);
  }

  lemma UniqueOne(x: UID)
    requires x != ""
    ensures Unique([x]) == [x]
  {
    UniqueSnoc([], x);
    assert [] + [x] == [x];
  }

  lemma UniqueTwo(x: UID, y: UID)
    requires x != "" && y != "" && x != y
    ensures Unique([x, y]) == [x, y] && Unique([x, y, x]) == [x, y] && Unique([x, y, y]) == [x, y]
  {
    UniqueOne(x);
    hide Unique;
    UniqueSnoc([x], y);
    assert [x] + [y] == [x, y];
    UniqueSnoc([x, y], x);
    UniqueSnoc([x, y], y);
    assert [x, y] + [x] == [x, y, x] && [x, y] + [y] == [x, y, y];
  }

  /**
   A subscriber is left out: the overlay fills the first page, the store lists nobody, and the
   overlay's UID stands behind the other one in the store's snapshot.
   */
  lemma SnapshotEnteredTooLate(store: Store, x: UID, y: UID)
    requires x != "" && y != "" && x != y && store.listed == [] && store.snapshot == [x, y]
    ensures Subscribers([y], store) == [y, x] && HandedOut([y], store, 1) == [y]
  {
    UniqueOne(y);
    UniqueTwo(x, y);
    UniqueTwo(y, x);
    assert [y] + [x, y] == [y, x, y];
    EntryBehind(store, x, y);
    hide *;
    KeepNothing(Elements([y]));
    AllButNobody(store, x, y);
  }

  lemma EntryBehind(store: Store, x: UID, y: UID)
    requires y != "" && x != y && Unique(store.snapshot) == [x, y] && Unique([y]) == [y]
    ensures SnapshotEntry([y], store, 1) == 2
  {
    BehindInPair(x, y);
    OneOnFullPages();
    CursorAfterOne(y);
    hide IndexAfter, OnFullPages, CursorAfter, Unique;
  }

  lemma BehindInPair(x: UID, y: UID)
    requires y != "" && x != y
    ensures IndexAfter([x, y], y) == 2
  {
    hide *;
    var s := [x, y];
    assert s[..1] == [x] && s[1] == y && y !in [x];
    IndexAfterIs(s, y, 2);
  }

  lemma OneOnFullPages()
    ensures OnFullPages(1, 1) == 1
  {
    QuotientAndRemainder(1, 1, 1, 0);
  }

  lemma CursorAfterOne(y: UID)
    ensures CursorAfter([y][..1]) == y
  {
    var s := [y][..1];
    assert |s| == 1 && s[0] == y;
  }

  lemma AllButNobody(store: Store, x: UID, y: UID)
    requires store.listed == [] && store.snapshot == [x, y] && SnapshotEntry([y], store, 1) == 2
    requires Unique([x, y]) == [x, y] && Unique([y]) == [y] && Unique([y] + [x, y]) == [y, x]
      && Keep([], Elements([y])) == []
    ensures Subscribers([y], store) == [y, x] && HandedOut([y], store, 1) == [y]
  {
    hide Unique, Keep, SnapshotEntry, Elements;
    var s := [x, y];
    assert s[2..] == [] && [y] + [] == [y];
  }

  lemma KeepNothing(seen: set<UID>)
    ensures Keep([], seen) == []
  {
  }

  // ---------------------------------------------------------------- the source object

  lemma IndexAfterIs(uids: seq<UID>, cursor: UID, i: nat)
    requires cursor != "" && 0 < i <= |uids| && uids[i - 1] == cursor && cursor !in uids[..i - 1]
    ensures IndexAfter(uids, cursor) == i
  {
    var j := IndexAfter(uids, cursor);
    assert uids[i - 1] in uids;
    assert forall k | 0 <= k < i - 1 :: uids[k] in uids[..i - 1];
    assert forall k | 0 <= k < j - 1 :: uids[k] in uids[..j - 1];
  }

  /** One page of a list, of the UIDs that have not been seen, from after the cursor string on. */
  method SnapshotPage(uids: seq<UID>, cursor: UID, limit: nat, seen: set<UID>)
      returns (page: seq<UID>, next: UID, done: bool, ghost at: nat)
    requires limit > 0
    ensures IndexAfter(uids, cursor) <= at <= |uids|
    ensures page + Keep(uids[at..], seen) == Keep(uids[IndexAfter(uids, cursor)..], seen) && |page| <= limit
    ensures (done <==> Keep(uids[at..], seen) == []) && (!done ==> |page| == limit)
    ensures page == [] ==> done && next == cursor
    ensures page != [] ==> IndexAfter(uids, cursor) < at && next == uids[at - 1] == page[|page| - 1]
  {
    var start := IndexAfterCursor(uids, cursor);
    if start > 0 {
      IndexAfterIs(uids, cursor, start);
    }
    if seen == {} {
      page, next, done, at := UnfilteredPage(uids, cursor, start, limit);
    } else {
      page, next, done, at := FilteredPage(uids, cursor, start, limit, seen);
    }
  }

  method UnfilteredPage(uids: seq<UID>, cursor: UID, start: nat, limit: nat)
      returns (page: seq<UID>, next: UID, done: bool, ghost at: nat)
    requires limit > 0 && start <= |uids|
    ensures start <= at <= |uids| && page + Keep(uids[at..], {}) == Keep(uids[start..], {}) && |page| <= limit
    ensures (done <==> Keep(uids[at..], {}) == []) && (!done ==> |page| == limit)
    ensures page == [] ==> done && next == cursor
    ensures page != [] ==> start < at && next == uids[at - 1] == page[|page| - 1]
  {
    KeepAll(uids[start..]);
    if start >= |uids| {
      return [], cursor, true, start;
    }
    var end := if start + limit > |uids| then |uids| else start + limit;
    KeepAll(uids[end..]);
    hide Keep;
    CutApart(uids, start, end);
    return uids[start..end], uids[end - 1], end >= |uids|, end;
  }

  /** What the page has so far, and what is left from i on. */
  ghost predicate Filtering(uids: seq<UID>, seen: set<UID>, start: nat, at: nat, i: nat, page: seq<UID>, next: UID,
      cursor: UID) {
    && start <= at <= i <= |uids|
    && page + Keep(uids[at..], seen) == Keep(uids[start..], seen) && Keep(uids[at..], seen) == Keep(uids[i..], seen)
    && (page == [] ==> next == cursor)
    && (page != [] ==> start < at && next == uids[at - 1] == page[|page| - 1])
  }

  lemma FilteringMore(uids: seq<UID>, seen: set<UID>, start: nat, at: nat, i: nat, page: seq<UID>, next: UID,
      cursor: UID)
    requires Filtering(uids, seen, start, at, i, page, next, cursor) && i < |uids|
    ensures uids[i] in seen ==> Filtering(uids, seen, start, at, i + 1, page, next, cursor)
    ensures uids[i] !in seen ==> Filtering(uids, seen, start, i + 1, i + 1, page + [uids[i]], uids[i], cursor)
  {
    assert uids[i..][1..] == uids[i + 1..];
    if uids[i] !in seen {
      assert page + ([uids[i]] + Keep(uids[i + 1..], seen)) == (page + [uids[i]]) + Keep(uids[i + 1..], seen);
    }
  }

  method FilteredPage(uids: seq<UID>, cursor: UID, start: nat, limit: nat, seen: set<UID>)
      returns (page: seq<UID>, next: UID, done: bool, ghost at: nat)
    requires limit > 0 && start <= |uids|
    ensures start <= at <= |uids| && page + Keep(uids[at..], seen) == Keep(uids[start..], seen) && |page| <= limit
    ensures (done <==> Keep(uids[at..], seen) == []) && (!done ==> |page| == limit)
    ensures page == [] ==> done && next == cursor
    ensures page != [] ==> start < at && next == uids[at - 1] == page[|page| - 1]
  {
    page, next, at := [], cursor, start;
    for i: nat := start to |uids|
      invariant |page| < limit && Filtering(uids, seen, start, at, i, page, next, cursor)
    {
      hide Filtering, Keep;
      FilteringMore(uids, seen, start, at, i, page, next, cursor);
      var uid := uids[i];
      if uid in seen {
        continue;
      }
      page, next, at := page + [uid], uid, i + 1;
      if |page| == limit {
        var more := HasMore(uids, i + 1, seen);
        FilteringEnd(uids, seen, start, at, i + 1, page, next, cursor);
        return page, next, !more, at;
      }
    }
    done := true;
  }

  lemma FilteringEnd(uids: seq<UID>, seen: set<UID>, start: nat, at: nat, i: nat, page: seq<UID>, next: UID,
      cursor: UID)
    requires Filtering(uids, seen, start, at, i, page, next, cursor)
    ensures start <= at <= |uids| && page + Keep(uids[at..], seen) == Keep(uids[start..], seen)
    ensures i <= |uids| && Keep(uids[at..], seen) == Keep(uids[i..], seen)
    ensures page != [] ==> start < at && next == uids[at - 1] == page[|page| - 1]
  {
  }

  method HasMore(uids: seq<UID>, start: nat, seen: set<UID>) returns (more: bool)
    requires start <= |uids|
    ensures more <==> Keep(uids[start..], seen) != []
  {
    for i := start to |uids|
      invariant Keep(uids[start..], seen) == Keep(uids[i..], seen)
    {
      assert uids[i..][1..] == uids[i + 1..];
      if uids[i] !in seen {
        return true;
      }
    }
    return false;
  }

  /** Reading the overlay and the list: what was handed out is what was read, without repetitions. */
  ghost predicate Reading(overlay: seq<UID>, listed: seq<UID>, overlayIndex: nat, covered: nat, handed: seq<UID>,
      seen: set<UID>) {
    && overlayIndex <= |overlay| && covered <= |listed|
    && handed == Unique(overlay[..overlayIndex] + listed[..covered]) && seen == Elements(handed)
    && (overlayIndex < |overlay| ==> covered == 0)
  }

  lemma ReadOverlay(overlay: seq<UID>, listed: seq<UID>, i: nat, handed: seq<UID>, seen: set<UID>)
    requires Reading(overlay, listed, i, 0, handed, seen) && i < |overlay| && "" !in overlay
    ensures overlay[i] in seen ==> Reading(overlay, listed, i + 1, 0, handed, seen)
    ensures overlay[i] !in seen ==> Reading(overlay, listed, i + 1, 0, handed + [overlay[i]], seen + {overlay[i]})
  {
    hide Unique, Elements;
    WithNothing(listed);
    WithNothing(overlay[..i]);
    WithNothing(overlay[..i + 1]);
    TakeMore(overlay, i);
    UniqueSnoc(overlay[..i], overlay[i]);
    ElementsSnoc(handed, overlay[i]);
  }

  /** A listed UID is new only when it is read for the first time; reading the list again adds nobody. */
  lemma ReadListed(overlay: seq<UID>, listed: seq<UID>, covered: nat, j: nat, handed: seq<UID>, seen: set<UID>)
    requires Reading(overlay, listed, |overlay|, covered, handed, seen) && j < |listed| && j <= covered && "" !in listed
    ensures var c := if j < covered then covered else j + 1;
      if listed[j] in seen then Reading(overlay, listed, |overlay|, c, handed, seen)
      else c == j + 1 && Reading(overlay, listed, |overlay|, c, handed + [listed[j]], seen + {listed[j]})
  {
    hide Unique, Elements;
    var read := overlay[..|overlay|] + listed[..covered];
    if j < covered {
      AlreadyRead(overlay[..|overlay|], listed, covered, j);
      UniqueElements(read);
      ElementsIn(handed, listed[j]);
    } else {
      TakeMore(listed, j);
      Regroup(overlay[..|overlay|], listed[..j], [listed[j]]);
      UniqueSnoc(read, listed[j]);
      ElementsSnoc(handed, listed[j]);
    }
  }

  lemma AlreadyRead(before: seq<UID>, listed: seq<UID>, covered: nat, j: nat)
    requires j < covered <= |listed|
    ensures listed[j] in before + listed[..covered]
  {
    assert listed[..covered][j] == listed[j];
  }

  lemma ElementsIn(s: seq<UID>, x: UID)
    ensures x in Elements(s) <==> x in s
  {
  }

  lemma ElementsSnoc(s: seq<UID>, x: UID)
    ensures Elements(s + [x]) == Elements(s) + {x} && (x in Elements(s) <==> x in s)
  {
  }

  lemma NothingRead(overlay: seq<UID>, listed: seq<UID>)
    ensures Reading(overlay, listed, 0, 0, [], {})
  {
    assert overlay[..0] + listed[..0] == [];
  }

  /** Reading a snapshot from the place where it was entered: the overlay, and then who is not in it, up to `at`. */
  ghost predicate Snapshotting(overlay: seq<UID>, snapshot: seq<UID>, entry: UID, at: nat, handed: seq<UID>) {
    && IndexAfter(snapshot, entry) <= at <= |snapshot|
    && handed == overlay + Keep(snapshot[IndexAfter(snapshot, entry)..at], Elements(overlay))
  }

  /** Whatever page comes next of a snapshot extends what was handed out of it. */
  lemma ReadSnapshot(overlay: seq<UID>, snapshot: seq<UID>, entry: UID, at: nat, handed: seq<UID>, page: seq<UID>,
      after: nat)
    requires Snapshotting(overlay, snapshot, entry, at, handed) && at <= after <= |snapshot|
    requires page + Keep(snapshot[after..], Elements(overlay)) == Keep(snapshot[at..], Elements(overlay))
    ensures Snapshotting(overlay, snapshot, entry, after, handed + page)
  {
    var i, o := IndexAfter(snapshot, entry), Elements(overlay);
    hide Keep, IndexAfter, Elements;
    KeepBetween(snapshot, i, at, after, page, o);
    assert overlay + (Keep(snapshot[i..at], o) + page) == overlay + Keep(snapshot[i..at], o) + page;
  }

  lemma KeepBetween(s: seq<UID>, i: nat, at: nat, after: nat, page: seq<UID>, seen: set<UID>)
    requires i <= at <= after <= |s| && page + Keep(s[after..], seen) == Keep(s[at..], seen)
    ensures Keep(s[i..after], seen) == Keep(s[i..at], seen) + page
  {
    hide *;
    CutApart(s, at, after);
    KeepConcat(s[at..after], s[after..], seen);
    SameFront(page, Keep(s[at..after], seen), Keep(s[after..], seen));
    SliceApart(s, i, at, after);
    KeepConcat(s[i..at], s[at..after], seen);
  }

  lemma EnterSnapshot(overlay: seq<UID>, snapshot: seq<UID>, entry: UID)
    ensures Snapshotting(overlay, snapshot, entry, IndexAfter(snapshot, entry), overlay)
  {
    var i := IndexAfter(snapshot, entry);
    assert snapshot[i..i] == [];
    assert overlay + [] == overlay;
  }

  /** The next page of a snapshot goes on after the last UID that was handed out of it. */
  lemma ResumeSnapshot(snapshot: seq<UID>, at: nat, handed: seq<UID>)
    requires Distinct(snapshot) && "" !in snapshot && 0 < at <= |snapshot|
    requires handed != [] && handed[|handed| - 1] == snapshot[at - 1]
    ensures IndexAfter(snapshot, CursorAfter(handed)) == at
  {
    assert snapshot[at - 1] in snapshot;
    IndexAfterIs(snapshot, CursorAfter(handed), at);
  }

  lemma CursorAfterPage(handed: seq<UID>, page: seq<UID>)
    ensures CursorAfter(handed + page) == if page == [] then CursorAfter(handed) else page[|page| - 1]
  {
    assert page == [] ==> handed + page == handed;
  }

  lemma OverlayIsUnique(overlay: seq<UID>, i: nat)
    requires Distinct(overlay) && "" !in overlay && i <= |overlay|
    ensures Unique(overlay[..i] + []) == overlay[..i] && Unique(overlay) == overlay
  {
    assert overlay[..i] + [] == overlay[..i];
    UniqueOfDistinct(overlay);
    UniqueOfDistinct(overlay[..i]);
  }

  class SubscriberState {
    const overlay: seq<UID>
    const store: Store
    var overlayIndex: nat
    var seen: set<UID>
    /** Subscribers come from the store's list; otherwise from a snapshot. */
    var storeBacked: bool
    var snapshot: seq<UID>
    /** The place in the list that the store's cursor string stands for; an empty string starts over. */
    var pos: nat
    var tried: bool
    var calls: nat
    /** All that was handed out, how far the list was read, where the snapshot was entered and how far it was read. */
    ghost var handed: seq<UID>
    ghost var covered: nat
    ghost var entry: UID
    ghost var at: nat
    ghost var finished: bool

    /** A store-backed source with an overlay, as for groups, visitors and customer service. */
    constructor StoreBacked(overlay: seq<UID>, store: Store)
      requires "" !in store.listed
      ensures Valid() && storeBacked && !tried && handed == [] && overlayIndex == 0 && !finished
      ensures this.overlay == Unique(overlay) && this.store == store
    {
      this.overlay, this.store := Unique(overlay), store;
      overlayIndex, seen, storeBacked, snapshot, pos, tried, calls := 0, {}, true, [], 0, false, 0;
      handed, covered, entry, at, finished := [], 0, "", 0, false;
      new;
      UniqueElements(overlay);
      NothingRead(this.overlay, store.listed);
    }

    /** A source with a fixed list, as for person and agent channels and message-scoped subscribers. */
    constructor Static(uids: seq<UID>)
      ensures Valid() && !storeBacked && handed == [] && overlay == [] && entry == "" && !finished
      ensures store.listed == [] && store.snapshot == uids
    {
      overlay, store := [], Store([], uids, _ => 0, _ => false);
      overlayIndex, seen, storeBacked, snapshot, pos, tried, calls := 0, {}, false, Unique(uids), 0, false, 0;
      handed, covered, entry, at, finished := [], 0, "", 0, false;
      new;
      EnterSnapshot([], Unique(uids), "");
    }

    ghost predicate Valid()
      reads this
    {
      && Distinct(overlay) && "" !in overlay && "" !in store.listed
      && if storeBacked then ListInv() else SnapshotInv()
    }

    ghost predicate ListInv()
      reads this
    {
      && Reading(overlay, store.listed, overlayIndex, covered, handed, seen)
      && pos <= covered && (pos < covered ==> covered == |store.listed|)
      && (!tried ==> covered == 0) && (tried ==> store.listed != [])
      && (finished ==> overlayIndex == |overlay| && covered == |store.listed| && tried)
    }

    ghost predicate SnapshotInv()
      reads this
    {
      && store.listed == [] && seen == Elements(overlay) && snapshot == Unique(store.snapshot)
      && Snapshotting(overlay, snapshot, entry, at, handed)
      && (if finished then Keep(snapshot[at..], seen) == []
          else if at == 0 then handed == [] else handed != [] && snapshot[at - 1] == handed[|handed| - 1])
    }

    /** The overlay's part of a page. */
    method TakeOverlay(cursor: UID, limit: nat) returns (out: seq<UID>, next: UID)
      requires Valid() && storeBacked && !finished && limit > 0 && cursor == CursorAfter(handed)
      modifies `overlayIndex, `seen, `handed
      ensures Valid() && handed == old(handed) + out && next == CursorAfter(handed)
      ensures |out| <= limit && overlayIndex == old(overlayIndex) + |out|
        && (|out| < limit ==> overlayIndex == |overlay|)
    {
      out, next := [], cursor;
      hide Unique;
      assert handed == old(handed) + out;
      while overlayIndex < |overlay| && |out| < limit
        invariant Valid() && handed == old(handed) + out && next == CursorAfter(handed)
        invariant |out| <= limit && overlayIndex == old(overlayIndex) + |out| && overlayIndex <= |overlay|
        decreases |overlay| - overlayIndex
      {
        var uid := overlay[overlayIndex];
        ReadOverlay(overlay, store.listed, overlayIndex, handed, seen);
        NewInOverlay();
        overlayIndex := overlayIndex + 1;
        if uid in seen {
          assert false;
          continue;
        }
        CursorAfterPage(handed, [uid]);
        assert handed + [uid] == old(handed) + (out + [uid]);
        seen, out, next, handed := seen + {uid}, out + [uid], uid, handed + [uid];
      }
    }

    /** The overlay has no repetitions, so none of its UIDs is skipped. */
    lemma NewInOverlay()
      requires Valid() && storeBacked && overlayIndex < |overlay|
      ensures overlay[overlayIndex] !in seen && handed == overlay[..overlayIndex]
    {
      assert store.listed[..covered] == [];
      OverlayIsUnique(overlay, overlayIndex);
    }

    /** Goes through one answer of the store; at most the last UID of it can fill the page. */
    method ReadAnswer(end: nat, page: seq<UID>, cursor: UID, limit: nat) returns (out: seq<UID>, next: UID, full: bool)
      requires Valid() && storeBacked && !finished && overlayIndex == |overlay| && pos <= end <= |store.listed|
      requires |page| < limit && end - pos <= limit - |page| && cursor == CursorAfter(handed)
      modifies `seen, `handed, `covered
      ensures Reading(overlay, store.listed, overlayIndex, covered, handed, seen)
      ensures covered == if old(covered) < end then end else old(covered)
      ensures page <= out && handed == old(handed) + out[|page|..] && next == CursorAfter(handed)
      ensures |out| <= limit && (full <==> |out| == limit)
    {
      out, next := page, cursor;
      hide Unique, Reading;
      assert handed == old(handed) + out[|page|..];
      for j: nat := pos to end
        invariant Reading(overlay, store.listed, overlayIndex, covered, handed, seen)
        invariant covered == if old(covered) < j then j else old(covered)
        invariant page <= out && handed == old(handed) + out[|page|..] && next == CursorAfter(handed)
        invariant |out| < limit && |out| <= |page| + (j - pos)
      {
        var uid := store.listed[j];
        ReadListed(overlay, store.listed, covered, j, handed, seen);
        if j == covered {
          covered := j + 1;
        }
        if uid in seen {
          continue;
        }
        CursorAfterPage(handed, [uid]);
        assert handed + [uid] == old(handed) + (out + [uid])[|page|..];
        seen, out, next, handed := seen + {uid}, out + [uid], uid, handed + [uid];
        if |out| == limit {
          return out, next, true;
        }
      }
      full := false;
    }

    /** The store lists nobody: from here on its snapshot is read, from after the cursor of this call. */
    method SwitchToSnapshot(cursor: UID, page: seq<UID>, next: UID, limit: nat) returns (out: seq<UID>, after: UID,
        done: bool)
      requires Valid() && storeBacked && !finished && store.listed == [] && overlayIndex == |overlay|
      requires |page| < limit && next == CursorAfter(handed) && (page == [] ==> cursor == next)
      modifies this
      ensures Valid() && !storeBacked && entry == cursor && done == finished && overlayIndex == old(overlayIndex)
      ensures page <= out && handed == old(handed) + out[|page|..] && |out| <= limit && after == CursorAfter(handed)
      ensures !done ==> |out| == limit
    {
      hide *;
      AllOverlay();
      tried, storeBacked, snapshot := true, false, Unique(store.snapshot);
      EnterSnapshot(overlay, snapshot, cursor);
      var more, last, ends;
      ghost var a;
      more, last, ends, a := SnapshotPage(snapshot, cursor, limit - |page|, seen);
      ReadSnapshot(overlay, snapshot, cursor, IndexAfter(snapshot, cursor), handed, more, a);
      CursorAfterPage(handed, more);
      entry, at, handed, finished := cursor, a, handed + more, ends;
      SnapshotIsValid(old(handed), more);
      PageGrows(page, more, old(handed));
      if more != [] {
        return page + more, last, ends;
      }
      if page != [] {
        return page, next, true;
      }
      return more, last, ends;
    }

    lemma PageGrows(page: seq<UID>, more: seq<UID>, before: seq<UID>)
      ensures (page + more)[|page|..] == more && page <= page + more
      ensures more == [] ==> before + more == before && page + more == page && page[|page|..] == []
    {
    }

    /** When the overlay is through and nobody is listed, exactly the overlay was handed out. */
    lemma AllOverlay()
      requires Valid() && storeBacked && store.listed == [] && overlayIndex == |overlay|
      ensures handed == overlay && seen == Elements(overlay) && Distinct(overlay) && "" !in overlay
        && "" !in store.listed
    {
      OverlayIsUnique(overlay, |overlay|);
      assert overlay[..|overlay|] == overlay && store.listed[..covered] == [];
    }

    lemma SnapshotIsValid(before: seq<UID>, more: seq<UID>)
      requires Distinct(overlay) && "" !in overlay && "" !in store.listed && !storeBacked
      requires store.listed == [] && seen == Elements(overlay) && snapshot == Unique(store.snapshot)
      requires Snapshotting(overlay, snapshot, entry, at, handed) && handed == before + more
      requires if more == [] then finished else at > 0 && snapshot[at - 1] == more[|more| - 1]
      requires finished <==> Keep(snapshot[at..], seen) == []
      ensures Valid()
    {
      hide Keep, Unique, Snapshotting;
    }

    /** A page of a store-backed source: the overlay, and then answers of the store until the page is full. */
    method NextStorePage(cursor: UID, limit: nat) returns (out: seq<UID>, next: UID, done: bool)
      requires Valid() && storeBacked && !finished && limit > 0 && cursor == CursorAfter(handed)
      modifies this
      ensures Valid() && handed == old(handed) + out && |out| <= limit && next == CursorAfter(handed)
      ensures done == finished && (!done ==> |out| == limit)
      ensures !storeBacked ==>
        !old(tried) && entry == cursor && store.listed == [] && |overlay| - old(overlayIndex) < limit
      ensures storeBacked && !tried ==> !old(tried) && overlayIndex == old(overlayIndex) + limit
    {
      hide *;
      out, next := TakeOverlay(cursor, limit);
      if |out| == limit {
        return out, next, false;
      }
      while |out| < limit
        invariant Valid() && storeBacked && !finished && overlayIndex == |overlay| && (old(tried) ==> tried)
        invariant handed == old(handed) + out && next == CursorAfter(handed) && |out| < limit
        invariant |overlay| - old(overlayIndex) < limit
        decreases |store.listed| - pos
      {
        InList();
        var end := store.End(calls, pos, limit - |out|);
        var last := store.Ends(calls, pos, end);
        CountCall();
        Answered(end, last);
        if end == pos && last && !tried {
          ghost var page := out;
          OutIsEmpty(old(handed), out, cursor, next);
          out, next, done := SwitchToSnapshot(cursor, out, next, limit);
          Appended(old(handed), page, out);
          return;
        }
        ghost var page := out;
        var full;
        out, next, full := TakeAnswer(end, last, out, next, limit);
        Appended(old(handed), page, out);
        if full {
          return out, next, false;
        }
        if last {
          Finish();
          return out, next, true;
        }
      }
      done := false;
    }

    method CountCall()
      requires Valid()
      modifies `calls
      ensures Valid()
    {
      calls := calls + 1;
      hide Reading, Snapshotting;
    }

    /** One answer, and the store's cursor moved behind it, or to the start when it was the last one. */
    method TakeAnswer(end: nat, last: bool, page: seq<UID>, cursor: UID, limit: nat) returns (out: seq<UID>, next: UID,
        full: bool)
      requires Valid() && storeBacked && !finished && overlayIndex == |overlay| && pos <= end <= |store.listed|
      requires |page| < limit && end - pos <= limit - |page| && cursor == CursorAfter(handed)
      requires store.listed != [] && (last ==> end == |store.listed|)
      modifies `seen, `handed, `covered, `pos, `tried
      ensures Valid() && tried && pos == (if last then 0 else end) && (last ==> covered == |store.listed|)
      ensures page <= out && handed == old(handed) + out[|page|..] && next == CursorAfter(handed)
      ensures |out| <= limit && (full <==> |out| == limit)
    {
      tried := true;
      out, next, full := ReadAnswer(end, page, cursor, limit);
      pos := if last then 0 else end;
      hide Reading;
    }

    /** The list was read to its end. */
    ghost method Finish()
      requires Valid() && storeBacked && overlayIndex == |overlay| && covered == |store.listed| && tried
      modifies `finished
      ensures Valid() && finished
    {
      finished := true;
      hide Reading;
    }

    lemma OutIsEmpty(before: seq<UID>, out: seq<UID>, cursor: UID, next: UID)
      requires cursor == CursorAfter(before) && next == CursorAfter(before + out)
      ensures out == [] ==> cursor == next
    {
      CursorAfterPage(before, out);
    }

    lemma Appended(before: seq<UID>, page: seq<UID>, out: seq<UID>)
      requires page <= out
      ensures before + page + out[|page|..] == before + out
    {
    }

    /** An answer without UIDs is the last one; the first answer is, exactly when nobody is listed. */
    lemma Answered(end: nat, last: bool)
      requires Valid() && storeBacked && pos <= end <= |store.listed| && (end == pos ==> pos == |store.listed|)
      requires last ==> end == |store.listed|
      ensures !tried ==> (store.listed == [] <==> end == pos)
      ensures tried ==> store.listed != []
    {
    }

    lemma InList()
      requires Valid() && storeBacked
      ensures pos <= |store.listed|
    {
    }

    /**
     The next page. A page before the last one is full, the cursor string is the last UID
     handed out, and a source that is done has handed out everything it has: the overlay and the
     list without repetitions, or the overlay and what the snapshot adds from its entry on.
     */
    method NextPage(cursor: UID, limit: nat) returns (page: seq<UID>, next: UID, done: bool)
      requires Valid() && !finished && limit > 0 && cursor == CursorAfter(handed)
      modifies this
      ensures Valid() && handed == old(handed) + page && |page| <= limit && next == CursorAfter(handed)
      ensures done == finished && (!done ==> |page| == limit)
      ensures done && storeBacked ==> store.listed != [] && handed == Unique(overlay + store.listed)
      ensures done && !storeBacked ==> store.listed == []
      ensures done && !storeBacked ==>
        handed == overlay + Keep(Unique(store.snapshot)[IndexAfter(Unique(store.snapshot), entry)..], Elements(overlay))
      ensures old(!storeBacked) ==> !storeBacked && entry == old(entry)
      ensures old(storeBacked) && !storeBacked ==>
        !old(tried) && entry == cursor && |overlay| - old(overlayIndex) < limit
      ensures storeBacked && !tried ==> !old(tried) && overlayIndex == old(overlayIndex) + limit
    {
      hide *;
      if storeBacked {
        page, next, done := NextStorePage(cursor, limit);
      } else {
        page, next, done := NextSnapshotPage(cursor, limit);
      }
      if done {
        AllHandedOut();
      }
    }

    /** A page of a source with a fixed list or a snapshot. */
    method NextSnapshotPage(cursor: UID, limit: nat) returns (page: seq<UID>, next: UID, done: bool)
      requires Valid() && !storeBacked && !finished && limit > 0 && cursor == CursorAfter(handed)
      modifies `handed, `at, `finished
      ensures Valid() && handed == old(handed) + page && |page| <= limit && next == CursorAfter(handed)
      ensures done == finished && (!done ==> |page| == limit)
    {
      hide *;
      Resumed();
      ghost var a;
      page, next, done, a := SnapshotPage(snapshot, cursor, limit, seen);
      ReadSnapshot(overlay, snapshot, entry, at, handed, page, a);
      CursorAfterPage(handed, page);
      at, handed, finished := a, handed + page, done;
      SnapshotIsValid(old(handed), page);
      assert page == [] ==> old(handed) + page == old(handed);
    }

    lemma Resumed()
      requires Valid() && !storeBacked && !finished
      ensures IndexAfter(snapshot, CursorAfter(handed)) == at && Snapshotting(overlay, snapshot, entry, at, handed)
      ensures Distinct(overlay) && "" !in overlay && "" !in store.listed
      ensures store.listed == [] && seen == Elements(overlay) && snapshot == Unique(store.snapshot)
    {
      UniqueElements(store.snapshot);
      hide Unique, Keep, IndexAfter;
      if at > 0 {
        ResumeSnapshot(snapshot, at, handed);
      }
    }

    lemma AllHandedOut()
      requires Valid() && finished
      ensures storeBacked ==> store.listed != [] && handed == Unique(overlay + store.listed)
      ensures !storeBacked ==> store.listed == []
      ensures !storeBacked ==>
        handed == overlay + Keep(Unique(store.snapshot)[IndexAfter(Unique(store.snapshot), entry)..], Elements(overlay))
    {
      hide Unique;
      if storeBacked {
        assert overlay[..overlayIndex] == overlay && store.listed[..covered] == store.listed;
      } else {
        hide IndexAfter, Keep, Elements;
        var i, s := IndexAfter(snapshot, entry), snapshot;
        CutApart(s, i, at);
        KeepConcat(s[i..at], s[at..], seen);
        WithNothing(Keep(s[i..at], seen));
      }
    }
  }

  // ---------------------------------------------------------------- all pages of a source

  lemma {:induction false} DistinctFits(s: seq<UID>, all: set<UID>)
    requires Distinct(s) && forall u :: u in s ==> u in all
    ensures |s| <= |all|
  {
    if s != [] {
      assert s[0] !in s[1..];
      DistinctFits(s[1..], all - {s[0]});
    }
  }

  ghost function Everybody(source: SubscriberState): set<UID> {
    Elements(source.overlay) + Elements(source.store.listed) + Elements(source.store.snapshot)
  }

  /** Whatever a source has handed out has no repetitions, and is part of what it was given. */
  lemma HandedIsDistinct(source: SubscriberState)
    requires source.Valid()
    ensures Distinct(source.handed) && "" !in source.handed && |source.handed| <= |Everybody(source)|
  {
    if source.storeBacked {
      UniqueElements(source.overlay[..source.overlayIndex] + source.store.listed[..source.covered]);
    } else {
      SnapshotIsDistinct(source.overlay, source.store.snapshot, source.entry, source.at, source.handed);
    }
    hide Unique, Keep, IndexAfter;
    forall u | u in source.handed ensures u in Everybody(source) {
    }
    DistinctFits(source.handed, Everybody(source));
  }

  lemma DistinctConcat(a: seq<UID>, b: seq<UID>)
    requires Distinct(a) && Distinct(b) && forall u :: u in b ==> u !in a
    ensures Distinct(a + b)
  {
    forall i, j | 0 <= i < j < |a + b| ensures (a + b)[i] != (a + b)[j] {
      if i < |a| && |a| <= j {
        assert a[i] in a && b[j - |a|] in b;
      }
    }
  }

  lemma SnapshotIsDistinct(overlay: seq<UID>, snapshot: seq<UID>, entry: UID, at: nat, handed: seq<UID>)
    requires Snapshotting(overlay, Unique(snapshot), entry, at, handed) && Distinct(overlay) && "" !in overlay
    ensures Distinct(handed) && "" !in handed && forall u :: u in handed ==> u in overlay || u in snapshot
  {
    hide Unique, Keep, IndexAfter, Elements, Distinct;
    var i, s := IndexAfter(Unique(snapshot), entry), Unique(snapshot);
    UniqueElements(snapshot);
    DistinctSlice(s, i, at);
    KeepElements(s[i..at], Elements(overlay));
    ElementsOf(overlay);
    DistinctConcat(overlay, Keep(s[i..at], Elements(overlay)));
  }

  lemma DistinctSlice(s: seq<UID>, i: nat, j: nat)
    requires Distinct(s) && i <= j <= |s|
    ensures Distinct(s[i..j])
  {
    assert forall k | 0 <= k < j - i :: s[i..j][k] == s[i + k];
  }

  /** The overlay as given, and freed of its repetitions. */
  lemma OverlayOnce(overlay: seq<UID>, store: Store, limit: nat)
    requires limit > 0
    ensures HandedOut(Unique(overlay), store, limit) == HandedOut(overlay, store, limit)
    ensures Subscribers(Unique(overlay), store) == Subscribers(overlay, store)
  {
    UniqueTwice(overlay, store.listed);
    UniqueTwice(overlay, store.snapshot);
    hide Unique, Keep, IndexAfter, Elements, CursorAfter, OnFullPages;
  }

  lemma UniqueTwice(a: seq<UID>, b: seq<UID>)
    ensures Unique(Unique(a) + b) == Unique(a + b) && Unique(Unique(a)) == Unique(a)
  {
    UniqueElements(a);
    UniqueOfDistinct(Unique(a));
    hide Unique, Keep, Elements;
    UniqueConcat(a, b);
    UniqueConcat(Unique(a), b);
  }

  /** All pages but the last one are full. */
  ghost predicate FullPages(pages: seq<seq<UID>>, limit: nat, done: bool) {
    forall k | 0 <= k < |pages| - (if done then 1 else 0) :: |pages[k]| == limit
  }

  lemma FullPagesHaveNoGap(pages: seq<seq<UID>>, limit: nat)
    requires FullPages(pages, limit, true) && limit > 0
    ensures NoGap(pages) && forall k | 0 <= k < |pages| - 1 :: |pages[k]| == limit
  {
  }

  lemma OneMorePage(pages: seq<seq<UID>>, page: seq<UID>, limit: nat, done: bool)
    requires FullPages(pages, limit, false) && (!done ==> |page| == limit)
    ensures FullPages(pages + [page], limit, done) && Flatten(pages + [page]) == Flatten(pages) + page
  {
    assert (pages + [page])[..|pages|] == pages && (pages + [page])[..|pages| + 1] == pages + [page];
    FlattenSnoc(pages + [page], |pages|);
  }

  ghost function EntryCursor(overlay: seq<UID>, limit: nat): UID
    requires limit > 0
  {
    CursorAfter(overlay[..OnFullPages(|overlay|, limit)])
  }

  /** Where a source with pages of one limit stands between two pages. */
  ghost predicate BetweenPages(source: SubscriberState, limit: nat)
    requires limit > 0
    reads source
  {
    && (source.storeBacked && !source.tried ==> source.overlayIndex % limit == 0)
    && (!source.storeBacked ==> source.entry == EntryCursor(source.overlay, limit))
  }

  /** A snapshot is entered after the pages that the overlay alone had filled. */
  lemma EntryIs(overlay: seq<UID>, listed: seq<UID>, i: nat, handed: seq<UID>, seen: set<UID>, limit: nat)
    requires limit > 0 && Distinct(overlay) && "" !in overlay && Reading(overlay, listed, i, 0, handed, seen)
    requires i % limit == 0 && |overlay| - i < limit
    ensures CursorAfter(handed) == EntryCursor(overlay, limit)
  {
    assert listed[..0] == [];
    OverlayIsUnique(overlay, i);
    RemainderOfSum(i, |overlay| - i, limit);
  }

  /** Reads one page at a constant limit. */
  method ReadPage(source: SubscriberState, cursor: UID, limit: nat) returns (page: seq<UID>, next: UID, done: bool)
    requires source.Valid() && !source.finished && limit > 0 && cursor == CursorAfter(source.handed)
    requires BetweenPages(source, limit)
    modifies source
    ensures source.Valid() && BetweenPages(source, limit)
    ensures source.handed == old(source.handed) + page && |page| <= limit && next == CursorAfter(source.handed)
    ensures done == source.finished && (!done ==> |page| == limit)
    ensures done ==> source.handed == HandedOut(source.overlay, source.store, limit)
  {
    hide *;
    NextEntry(source, limit);
    page, next, done := source.NextPage(cursor, limit);
    PageRead(source, limit);
    if done {
      AllIsHandedOut(source, limit);
    }
  }

  lemma NextEntry(source: SubscriberState, limit: nat)
    requires source.Valid() && limit > 0 && BetweenPages(source, limit)
    ensures source.storeBacked && !source.tried && |source.overlay| - source.overlayIndex < limit ==>
      CursorAfter(source.handed) == EntryCursor(source.overlay, limit)
    ensures source.storeBacked && !source.tried ==> (source.overlayIndex + limit) % limit == 0
    ensures !source.storeBacked ==> source.entry == EntryCursor(source.overlay, limit)
  {
    hide Unique, EntryCursor, CursorAfter;
    if source.storeBacked && !source.tried {
      RemainderOfSum(source.overlayIndex, 0, limit);
      if |source.overlay| - source.overlayIndex < limit {
        EntryIs(source.overlay, source.store.listed, source.overlayIndex, source.handed, source.seen, limit);
      }
    }
  }

  lemma PageRead(source: SubscriberState, limit: nat)
    requires limit > 0
    requires source.storeBacked && !source.tried ==> source.overlayIndex % limit == 0
    requires !source.storeBacked ==> source.entry == EntryCursor(source.overlay, limit)
    ensures BetweenPages(source, limit)
  {
  }

  lemma AllIsHandedOut(source: SubscriberState, limit: nat)
    requires limit > 0 && source.Valid() && BetweenPages(source, limit)
    requires source.storeBacked ==>
      source.store.listed != [] && source.handed == Unique(source.overlay + source.store.listed)
    requires !source.storeBacked ==> source.store.listed == []
    requires !source.storeBacked ==>
      var s := Unique(source.store.snapshot);
      source.handed == source.overlay + Keep(s[IndexAfter(s, source.entry)..], Elements(source.overlay))
    ensures source.handed == HandedOut(source.overlay, source.store, limit)
  {
    UniqueOfDistinct(source.overlay);
    hide Unique, Keep, IndexAfter, Elements, Reading, Snapshotting, CursorAfter;
  }

  /**
   Every page of a source, at one limit. No UID is repeated, every page before the last one is
   full, and the pages together are what the source hands out.
   */
  method ReadAll(source: SubscriberState, limit: nat) returns (pages: seq<seq<UID>>)
    requires source.Valid() && !source.finished && limit > 0 && source.handed == []
    requires source.storeBacked ==> !source.tried && source.overlayIndex == 0
    requires !source.storeBacked ==> source.overlay == [] && source.entry == ""
    modifies source
    ensures pages != [] && NoGap(pages) && Distinct(Flatten(pages)) && "" !in Flatten(pages)
    ensures forall k | 0 <= k < |pages| :: |pages[k]| <= limit && (k < |pages| - 1 ==> |pages[k]| == limit)
    ensures Flatten(pages) == HandedOut(source.overlay, source.store, limit)
  {
    pages := [];
    var cursor, done := "", false;
    hide *;
    StartOfPages(source, limit);
    while !done
      invariant source.Valid() && BetweenPages(source, limit) && done == source.finished
      invariant FullPages(pages, limit, done) && Flatten(pages) == source.handed && cursor == CursorAfter(source.handed)
      invariant forall k | 0 <= k < |pages| :: |pages[k]| <= limit
      invariant done ==> pages != [] && source.handed == HandedOut(source.overlay, source.store, limit)
      decreases !done, |Everybody(source)| - |source.handed|
    {
      var page;
      HandedIsDistinct(source);
      page, cursor, done := ReadPage(source, cursor, limit);
      HandedIsDistinct(source);
      OneMorePage(pages, page, limit, done);
      pages := pages + [page];
    }
    HandedIsDistinct(source);
    FullPagesHaveNoGap(pages, limit);
  }

  lemma StartOfPages(source: SubscriberState, limit: nat)
    requires source.Valid() && !source.finished && limit > 0 && source.handed == []
    requires source.storeBacked ==> !source.tried && source.overlayIndex == 0
    requires !source.storeBacked ==> source.overlay == [] && source.entry == ""
    ensures BetweenPages(source, limit) && FullPages([], limit, false) && Flatten<UID>([]) == []
      && CursorAfter([]) == ""
  {
    SmallRemainder(0, limit);
  }

  // ---------------------------------------------------------------- both paths on a real source

  /** A channel's subscribers: a fixed list, or an overlay and what the store has. */
  datatype Kind = Fixed(uids: seq<UID>) | Stored(overlay: seq<UID>, store: Store)

  ghost function HandedOutBy(kind: Kind, limit: nat): seq<UID>
    requires limit > 0
  {
    if kind.Fixed? then Unique(kind.uids) else HandedOut(kind.overlay, kind.store, limit)
  }

  /** The same subscribers, with a store whose answers may be cut differently. */
  ghost predicate SameSubscribers(a: Kind, b: Kind) {
    if a.Fixed? then b == a
    else b.Stored? && b.overlay == a.overlay && b.store.listed == a.store.listed && b.store.snapshot == a.store.snapshot
  }

  lemma SameHandedOut(a: Kind, b: Kind, limit: nat)
    requires limit > 0 && SameSubscribers(a, b)
    ensures HandedOutBy(a, limit) == HandedOutBy(b, limit)
  {
    hide Unique, Keep, IndexAfter, Elements, CursorAfter, OnFullPages;
  }

  lemma FixedIsAll(uids: seq<UID>, store: Store, limit: nat)
    requires limit > 0 && store.listed == [] && store.snapshot == uids
    ensures HandedOut([], store, limit) == Unique(uids)
  {
    assert [] + uids == uids && Unique([]) == [];
    hide Unique, OnFullPages, IndexAfter, Keep;
    SmallOverlaysLoseNobody([], store, limit);
  }

  /** All pages that a new snapshot of the channel's subscribers hands out. */
  method Collect(kind: Kind, limit: nat) returns (pages: seq<seq<UID>>)
    requires limit > 0 && (kind.Stored? ==> "" !in kind.store.listed)
    ensures pages != [] && NoGap(pages) && Distinct(Flatten(pages)) && "" !in Flatten(pages)
    ensures Flatten(pages) == HandedOutBy(kind, limit)
  {
    hide Unique, Keep, IndexAfter, NoGap, Distinct, HandedOut;
    if kind.Fixed? {
      var source := new SubscriberState.Static(kind.uids);
      pages := ReadAll(source, limit);
      FixedIsAll(kind.uids, source.store, limit);
    } else {
      var source := new SubscriberState.StoreBacked(kind.overlay, kind.store);
      pages := ReadAll(source, limit);
      OverlayOnce(kind.overlay, kind.store, limit);
    }
  }

  /**
   A message's recipients on both paths, each over its own snapshot of a channel whose
   subscribers do not change. The tag path delivers the same routes as the local path, for any
   overlay, store, limits and topology; the local path delivers, in order, to everybody that the
   source hands out, and that is every subscriber exactly when `NobodyLeftOutExactly` says so.
   */
  method DeliverBothWays(cfg: Config, kind: Kind, again: Kind, local: nat, leaders: seq<nat>, limits: nat -> int,
      replaced: nat -> bool) returns (here: seq<RouteKey>, tagged: seq<RouteKey>)
    requires SameSubscribers(kind, again) && (kind.Stored? ==> "" !in kind.store.listed)
    ensures here == Expand(cfg.presence, HandedOutBy(kind, EffectivePageSize(cfg.pageSize)))
    ensures multiset(tagged) == multiset(here)
  {
    var limit := EffectivePageSize(cfg.pageSize);
    SameHandedOut(kind, again, limit);
    hide Unique, Keep, IndexAfter, HandedOutBy, Expand, Distinct, NoGap;
    var pages := Collect(kind, limit);
    var pagesAgain := Collect(again, limit);
    hide *;
    var driven, offline;
    driven, here,
      offline :=
      LocalResolver.Drive(LocalResolver.Config(pages, cfg.presence, cfg.collectOffline, cfg.pageSize), limits);
    ghost var collected;
    driven, tagged, offline, collected := TagResolver.Drive(cfg, pagesAgain, local, leaders, limits, replaced);
  }
}
