/**
 The tag-based route resolver (internal/app/deliveryrouting.go:1118-1241, 1320-1475). The
 leader collects the subscribers once, partitions them over the nodes of the topology, and
 resolves pages from the flattened partitions. Up to order it delivers what the local
 resolver delivers.
 */
module TagResolver {
  import opened Options
  import opened Routes
  import opened Sequences
  import opened Ascending

  // ---------------------------------------------------------------- collecting the subscribers

  /** The cursor string after a prefix of the source: the last UID handed out, or the empty string. */
  function CursorAfter(uids: seq<UID>): UID {
    if uids == [] then "" else uids[|uids| - 1]
  }

  /** Drops empty strings and repetitions, keeping first occurrences in order. */
  function Unique(uids: seq<UID>): (r: seq<UID>)
    decreases |uids|
  {
    if uids == [] then []
    else
      var init, last := Unique(uids[..|uids| - 1]), uids[|uids| - 1];
      if last == "" || last in init then init else init + [last]
  }

  lemma {:induction false} UniqueElements(uids: seq<UID>)
    ensures Distinct(Unique(uids)) && "" !in Unique(uids)
    ensures forall u :: u in Unique(uids) <==> u in uids && u != ""
    decreases |uids|
  {
    if uids != [] {
      var init, last := uids[..|uids| - 1], uids[|uids| - 1];
      UniqueElements(init);
      assert uids == init + [last];
    }
  }

  lemma {:induction false} UniqueOfDistinct(uids: seq<UID>)
    requires Distinct(uids) && "" !in uids
    ensures Unique(uids) == uids
    decreases |uids|
  {
    if uids != [] {
      var init, last := uids[..|uids| - 1], uids[|uids| - 1];
      assert uids == init + [last];
      UniqueOfDistinct(init);
    }
  }

  /** The uniqueness loop of the tag builder. */
  method UniqueStrings(values: seq<UID>) returns (out: seq<UID>)
    ensures out == Unique(values)
  {
    var seen: set<UID> := {};
    out := [];
    for k := 0 to |values|
      invariant out == Unique(values[..k])
      invariant forall u :: u in seen <==> u in out
    {
      assert values[..k + 1][..k] == values[..k];
      if values[k] == "" || values[k] in seen {
        continue;
      }
      seen := seen + {values[k]};
      out := out + [values[k]];
    }
    assert values[..|values|] == values;
  }

  /** Reading the source stops at its last page, and also as soon as the cursor string does not move. */
  ghost predicate StopsAfter(source: seq<seq<UID>>, k: nat)
    requires k < |source|
  {
    var cursor, next := CursorAfter(Flatten(source[..k])), CursorAfter(Flatten(source[..k + 1]));
    k + 1 == |source| || next == "" || next == cursor
  }

  /** Reads the whole subscriber snapshot, page after page. */
  method CollectSnapshotUIDs(source: seq<seq<UID>>) returns (uids: seq<UID>, ghost pages: nat)
    ensures pages <= |source| && uids == Unique(Flatten(source[..pages]))
    ensures source != [] ==> pages > 0 && StopsAfter(source, pages - 1)
    ensures forall k | 0 <= k < pages - 1 :: !StopsAfter(source, k)
  {
    var collected: seq<UID> := [];
    pages := 0;
    assert source[..0] == [];
    var k, cursor := 0, "";
    while k < |source|
      invariant k <= |source| && pages == k && collected == Flatten(source[..k]) && cursor == CursorAfter(collected)
      invariant forall j | 0 <= j < k :: !StopsAfter(source, j)
    {
      FlattenSnoc(source, k);
      collected := collected + source[k];
      var next := CursorAfter(collected);
      k, pages := k + 1, k + 1;
      if k == |source| || next == "" || next == cursor {
        break;
      }
      cursor := next;
    }
    uids := UniqueStrings(collected);
  }

  lemma FlattenSnoc<T>(pages: seq<seq<T>>, k: nat)
    requires k < |pages|
    ensures Flatten(pages[..k + 1]) == Flatten(pages[..k]) + pages[k]
  {
    assert pages[..k + 1] == pages[..k] + [pages[k]];
    FlattenConcat(pages[..k], [pages[k]]);
    assert [pages[k]][1..] == [];
    assert Flatten([pages[k]]) == pages[k] + [];
  }

  lemma CursorMoves(before: seq<UID>, page: seq<UID>, all: seq<UID>)
    requires before + page <= all && Distinct(all) && "" !in all
    ensures CursorAfter(before + page) == "" || CursorAfter(before + page) == CursorAfter(before) <==> page == []
  {
    if page == [] {
      assert before + page == before;
    } else {
      var read := before + page;
      assert read[|read| - 1] == all[|read| - 1] && all[|read| - 1] in all;
      if before != [] {
        assert before[|before| - 1] == all[|before| - 1];
      }
    }
  }

  /** With distinct non-empty UIDs the cursor string stands still exactly on an empty page. */
  lemma StopsExactlyOnEmptyPages(source: seq<seq<UID>>, k: nat)
    requires k < |source| && Distinct(Flatten(source)) && "" !in Flatten(source)
    ensures StopsAfter(source, k) <==> k + 1 == |source| || source[k] == []
  {
    FlattenSnoc(source, k);
    PrefixOfFlatten(source, k + 1);
    hide Flatten;
    CursorMoves(Flatten(source[..k]), source[k], Flatten(source));
  }

  lemma PrefixOfFlatten<T>(source: seq<seq<T>>, k: nat)
    requires k <= |source|
    ensures Flatten(source) == Flatten(source[..k]) + Flatten(source[k..])
  {
    assert source == source[..k] + source[k..];
    FlattenConcat(source[..k], source[k..]);
  }

  /** No page without UIDs comes before a page with UIDs. */
  ghost predicate NoGap(source: seq<seq<UID>>) {
    forall i, j | 0 <= i < j < |source| && source[i] == [] :: source[j] == []
  }

  lemma {:induction false} FlattenEmpty<T>(pages: seq<seq<T>>)
    ensures Flatten(pages) == [] <==> forall i | 0 <= i < |pages| :: pages[i] == []
  {
    if pages != [] {
      FlattenEmpty(pages[1..]);
      assert forall i | 1 <= i < |pages| :: pages[i] == pages[1..][i - 1];
    }
  }

  /** Reading on past the last page read would have yielded nothing exactly when no page is hidden behind a gap. */
  lemma NothingUnreadExactlyWithoutGap(source: seq<seq<UID>>, pages: nat)
    requires pages <= |source| && (source != [] ==> pages > 0)
    requires forall k | 0 <= k < pages - 1 :: source[k] != []
    requires pages < |source| ==> source[pages - 1] == []
    ensures (forall i | 0 <= i < |source[pages..]| :: source[pages..][i] == []) <==> NoGap(source)
  {
    var rest := source[pages..];
    assert forall i | 0 <= i < |rest| :: rest[i] == source[pages + i];
    if forall i | 0 <= i < |rest| :: rest[i] == [] {
      forall i, j | 0 <= i < j < |source| && source[i] == [] ensures source[j] == [] {
        assert i >= pages - 1;
        assert source[j] == rest[j - pages];
      }
    } else {
      var i :| 0 <= i < |rest| && rest[i] != [];
      assert source[pages - 1] == [] && source[pages + i] != [];
    }
  }

  /** What was read, freed of repetitions, is everything exactly when nothing was left unread. */
  lemma ReadIsAllExactlyIfRestEmpty(read: seq<UID>, rest: seq<UID>)
    requires Distinct(read + rest) && "" !in read + rest
    ensures Unique(read) == read + rest <==> rest == []
  {
    PrefixDistinct(read, rest);
    UniqueOfDistinct(read);
    hide Unique;
    assert |read + rest| == |read| + |rest|;
    assert rest == [] ==> read + rest == read;
  }

  /**
   Exactly when the collected tag holds every subscriber: with distinct non-empty UIDs, if
   and only if the source hands out no empty page before a page with UIDs on it.
   */
  lemma CollectsAllExactlyWithoutGap(source: seq<seq<UID>>, pages: nat)
    requires Distinct(Flatten(source)) && "" !in Flatten(source)
    requires pages <= |source| && (source != [] ==> pages > 0 && StopsAfter(source, pages - 1))
    requires forall k | 0 <= k < pages - 1 :: !StopsAfter(source, k)
    ensures Unique(Flatten(source[..pages])) == Flatten(source) <==> NoGap(source)
  {
    hide Flatten, Unique, NoGap, Distinct, StopsAfter;
    forall k | 0 <= k < pages
      ensures k + 1 < pages ==> source[k] != []
      ensures k + 1 == pages ==> pages == |source| || source[k] == []
    {
      StopsExactlyOnEmptyPages(source, k);
    }
    PrefixOfFlatten(source, pages);
    FlattenEmpty(source[pages..]);
    NothingUnreadExactlyWithoutGap(source, pages);
    ReadIsAllExactlyIfRestEmpty(Flatten(source[..pages]), Flatten(source[pages..]));
  }

  lemma PrefixDistinct(a: seq<UID>, b: seq<UID>)
    requires Distinct(a + b) && "" !in a + b
    ensures Distinct(a) && "" !in a
  {
    assert forall i | 0 <= i < |a| :: a[i] == (a + b)[i];
  }

  // ---------------------------------------------------------------- partitioning

  datatype NodePartition = NodePartition(node: nat, uids: seq<UID>)

  /** The node that the UID at `index` is assigned to: slot leaders in turn, the local node by default. */
  function Assigned(local: nat, leaders: seq<nat>, index: nat): nat {
    if leaders != [] && leaders[index % |leaders|] != 0 then leaders[index % |leaders|] else local
  }

  /** The UIDs assigned to one node, in order. */
  function AssignedTo(local: nat, leaders: seq<nat>, uids: seq<UID>, node: nat): seq<UID>
    decreases |uids|
  {
    if uids == [] then []
    else
      var n := |uids| - 1;
      AssignedTo(local, leaders, uids[..n], node) + if Assigned(local, leaders, n) == node then [uids[n]] else []
  }

  function AssignedToAll(local: nat, leaders: seq<nat>, uids: seq<UID>, nodes: seq<nat>): seq<UID> {
    if nodes == [] then []
    else AssignedTo(local, leaders, uids, nodes[0]) + AssignedToAll(local, leaders, uids, nodes[1..])
  }

  lemma {:induction false} OneMoreUID(local: nat, leaders: seq<nat>, uids: seq<UID>, nodes: seq<nat>)
    requires uids != [] && StrictlyAscending(nodes)
    ensures multiset(AssignedToAll(local, leaders, uids, nodes))
         == multiset(AssignedToAll(local, leaders, uids[..|uids| - 1], nodes))
            + if Assigned(local, leaders, |uids| - 1) in nodes then multiset{uids[|uids| - 1]} else multiset{}
    decreases |nodes|
  {
    hide Assigned;
    if nodes != [] {
      OneMoreUID(local, leaders, uids, nodes[1..]);
      var owner := Assigned(local, leaders, |uids| - 1);
      assert owner == nodes[0] ==> owner !in nodes[1..];
    }
  }

  lemma {:induction false} NothingAssigned(local: nat, leaders: seq<nat>, nodes: seq<nat>)
    ensures AssignedToAll(local, leaders, [], nodes) == []
  {
    if nodes != [] {
      NothingAssigned(local, leaders, nodes[1..]);
    }
  }

  lemma MultisetSnoc<T>(s: seq<T>)
    requires s != []
    ensures multiset(s) == multiset(s[..|s| - 1]) + multiset{s[|s| - 1]}
  {
    assert s == s[..|s| - 1] + [s[|s| - 1]];
  }

  /** Partitioning loses no UID and repeats none. */
  lemma {:induction false} PartitionConserves(local: nat, leaders: seq<nat>, uids: seq<UID>, nodes: seq<nat>)
    requires StrictlyAscending(nodes)
    requires forall i | 0 <= i < |uids| :: Assigned(local, leaders, i) in nodes
    ensures multiset(AssignedToAll(local, leaders, uids, nodes)) == multiset(uids)
    decreases |uids|
  {
    hide *;
    if uids == [] {
      NothingAssigned(local, leaders, nodes);
    } else {
      PartitionConserves(local, leaders, uids[..|uids| - 1], nodes);
      OneMoreUID(local, leaders, uids, nodes);
      MultisetSnoc(uids);
    }
  }

  /** Some of the first `count` UIDs is assigned to the node. */
  ghost predicate IsAssigned(local: nat, leaders: seq<nat>, count: nat, node: nat) {
    exists j: nat :: j < count && Assigned(local, leaders, j) == node
  }

  lemma OneMoreAssigned(local: nat, leaders: seq<nat>, count: nat, node: nat)
    ensures IsAssigned(local, leaders, count + 1, node)
            <==> IsAssigned(local, leaders, count, node) || Assigned(local, leaders, count) == node
  {
    hide Assigned;
  }

  lemma AssignedSnoc(local: nat, leaders: seq<nat>, uids: seq<UID>, uid: UID, node: nat)
    ensures AssignedTo(local, leaders, uids + [uid], node)
         == AssignedTo(local, leaders, uids, node) + if Assigned(local, leaders, |uids|) == node then [uid] else []
  {
    assert (uids + [uid])[..|uids|] == uids;
    hide Assigned;
  }

  /** Groups exactly the UIDs assigned to each node, for exactly the nodes that some UID is assigned to. */
  ghost predicate GroupsUpTo(byNode: map<nat, seq<UID>>, local: nat, leaders: seq<nat>, uids: seq<UID>) {
    && (forall n :: n in byNode <==> IsAssigned(local, leaders, |uids|, n))
    && (forall n :: n in byNode ==> byNode[n] == AssignedTo(local, leaders, uids, n))
  }

  lemma {:induction false} NothingForOthers(local: nat, leaders: seq<nat>, uids: seq<UID>, node: nat)
    requires forall j | 0 <= j < |uids| :: Assigned(local, leaders, j) != node
    ensures AssignedTo(local, leaders, uids, node) == []
    decreases |uids|
  {
    if uids != [] {
      NothingForOthers(local, leaders, uids[..|uids| - 1], node);
    }
  }

  lemma GroupOneMore(byNode: map<nat, seq<UID>>, local: nat, leaders: seq<nat>, uids: seq<UID>, uid: UID)
    requires GroupsUpTo(byNode, local, leaders, uids)
    ensures var node := Assigned(local, leaders, |uids|);
      GroupsUpTo(byNode[node := (if node in byNode then byNode[node] else []) + [uid]], local, leaders, uids + [uid])
  {
    var node := Assigned(local, leaders, |uids|);
    if node !in byNode {
      NobodyAssigned(local, leaders, uids, node);
    }
    hide Assigned, IsAssigned, AssignedTo;
    var after := byNode[node := (if node in byNode then byNode[node] else []) + [uid]];
    forall n
      ensures n in after <==> IsAssigned(local, leaders, |uids + [uid]|, n)
      ensures n in after ==> after[n] == AssignedTo(local, leaders, uids + [uid], n)
    {
      OneMoreAssigned(local, leaders, |uids|, n);
      AssignedSnoc(local, leaders, uids, uid, n);
      WithNothing(AssignedTo(local, leaders, uids, n));
    }
  }

  lemma NobodyAssigned(local: nat, leaders: seq<nat>, uids: seq<UID>, node: nat)
    requires !IsAssigned(local, leaders, |uids|, node)
    ensures AssignedTo(local, leaders, uids, node) == []
  {
    hide Assigned;
    NothingForOthers(local, leaders, uids, node);
  }

  /** The node's partition has the UID. */
  ghost predicate HasUID(out: seq<NodePartition>, node: nat, uid: UID) {
    exists k :: 0 <= k < |out| && out[k].node == node && uid in out[k].uids
  }

  /** Groups the UIDs by node and lists the groups by ascending node. */
  method PartitionUIDs(local: nat, leaders: seq<nat>, uids: seq<UID>) returns (out: seq<NodePartition>,
      ghost nodes: seq<nat>)
    ensures StrictlyAscending(nodes) && |out| == |nodes|
    ensures forall n :: n in nodes <==> exists i :: 0 <= i < |uids| && Assigned(local, leaders, i) == n
    ensures forall k | 0 <= k < |out| :: out[k] == NodePartition(nodes[k], AssignedTo(local, leaders, uids, nodes[k]))
    // The slot leaders take the UIDs in turn; without leaders, or on an unknown one's turn, the local node does.
    ensures forall i | 0 <= i < |uids| ::
      HasUID(out, if leaders == [] || leaders[i % |leaders|] == 0 then local else leaders[i % |leaders|], uids[i])
  {
    var byNode: map<nat, seq<UID>> := map[];
    for i := 0 to |uids|
      invariant GroupsUpTo(byNode, local, leaders, uids[..i])
    {
      hide GroupsUpTo, AssignedTo;
      var node := Assigned(local, leaders, i);
      assert uids[..i + 1] == uids[..i] + [uids[i]];
      GroupOneMore(byNode, local, leaders, uids[..i], uids[i]);
      byNode := byNode[node := (if node in byNode then byNode[node] else []) + [uids[i]]];
    }
    assert uids[..|uids|] == uids;
    hide AssignedTo, Assigned;
    var ids := Sort(byNode.Keys);
    nodes := ids;
    out := [];
    for k := 0 to |ids|
      invariant |out| == k
      invariant forall j | 0 <= j < k :: out[j] == NodePartition(ids[j], AssignedTo(local, leaders, uids, ids[j]))
    {
      assert ids[k] in byNode;
      out := out + [NodePartition(ids[k], byNode[ids[k]])];
    }
    EveryoneInTurn(local, leaders, uids, nodes, out);
  }

  /** The node that the UID at an index is assigned to: the leaders in turn, the local node for an unknown one. */
  lemma LeaderInTurn(local: nat, leaders: seq<nat>, i: nat)
    ensures var leader := if leaders == [] then 0 else leaders[i % |leaders|];
      Assigned(local, leaders, i) == if leader == 0 then local else leader
  {
  }

  lemma EveryoneInTurn(local: nat, leaders: seq<nat>, uids: seq<UID>, nodes: seq<nat>, out: seq<NodePartition>)
    requires |out| == |nodes|
    requires forall n :: n in nodes <==> exists i :: 0 <= i < |uids| && Assigned(local, leaders, i) == n
    requires forall k | 0 <= k < |out| :: out[k] == NodePartition(nodes[k], AssignedTo(local, leaders, uids, nodes[k]))
    ensures forall i | 0 <= i < |uids| ::
      HasUID(out, if leaders == [] || leaders[i % |leaders|] == 0 then local else leaders[i % |leaders|], uids[i])
  {
    hide AssignedTo, Assigned;
    forall i | 0 <= i < |uids|
      ensures HasUID(out,
        if leaders == [] || leaders[i % |leaders|] == 0 then local else leaders[i % |leaders|], uids[i])
    {
      LeaderInTurn(local, leaders, i);
      HeldByAssigned(local, leaders, uids, i);
      var node := Assigned(local, leaders, i);
      assert node in nodes;
      var k :| 0 <= k < |nodes| && nodes[k] == Assigned(local, leaders, i);
      assert out[k].node == nodes[k] && uids[i] in out[k].uids;
      assert HasUID(out, node, uids[i]);
    }
  }

  lemma {:induction false} HeldByAssigned(local: nat, leaders: seq<nat>, uids: seq<UID>, i: nat)
    requires i < |uids|
    ensures uids[i] in AssignedTo(local, leaders, uids, Assigned(local, leaders, i))
    decreases |uids|
  {
    hide Assigned;
    if i < |uids| - 1 {
      HeldByAssigned(local, leaders, uids[..|uids| - 1], i);
    }
  }

  /** Every UID in the tag body, partition after partition. */
  function RoutableUIDs(partitions: seq<NodePartition>): seq<UID> {
    if partitions == [] then [] else partitions[0].uids + RoutableUIDs(partitions[1..])
  }

  lemma {:induction false} RoutableIsAssigned(local: nat, leaders: seq<nat>, uids: seq<UID>,
      out: seq<NodePartition>, nodes: seq<nat>)
    requires |out| == |nodes|
    requires forall k | 0 <= k < |out| :: out[k] == NodePartition(nodes[k], AssignedTo(local, leaders, uids, nodes[k]))
    ensures RoutableUIDs(out) == AssignedToAll(local, leaders, uids, nodes)
  {
    if out != [] {
      RoutableIsAssigned(local, leaders, uids, out[1..], nodes[1..]);
    }
  }

  // ---------------------------------------------------------------- paging

  /** Where resolution resumes in a UID list after the cursor string; at the start when it is unknown. */
  method IndexAfterCursor(uids: seq<UID>, cursor: UID) returns (index: nat)
    ensures index <= |uids|
    ensures cursor == "" || cursor !in uids ==> index == 0
    ensures cursor != "" && cursor in uids ==> index > 0 && uids[index - 1] == cursor && cursor !in uids[..index - 1]
  {
    if cursor == "" {
      return 0;
    }
    for i := 0 to |uids|
      invariant cursor !in uids[..i]
    {
      if uids[i] == cursor {
        return i + 1;
      }
      assert uids[..i + 1] == uids[..i] + [uids[i]];
    }
    assert uids[..|uids|] == uids;
    return 0;
  }

  /** The next slice of at most `limit` UIDs, the index after it, and whether the list ends there. */
  function NextUIDPage(uids: seq<UID>, start: nat, limit: nat): (r: (seq<UID>, nat, bool))
    requires limit > 0 && start <= |uids|
    ensures start <= r.1 <= |uids| && |r.0| == r.1 - start <= limit && uids[start..] == r.0 + uids[r.1..]
    ensures r.2 <==> r.1 == |uids|
    ensures r.0 == [] <==> start == |uids|
  {
    if start >= |uids| then ([], |uids|, true)
    else
      var end := if start + limit > |uids| then |uids| else start + limit;
      (uids[start..end], end, end >= |uids|)
  }

  datatype Config = Config(presence: Presence, collectOffline: bool, pageSize: int)

  /** What the tag manager answers before a page: the same tag body, or the body that replaced it. */
  datatype Refresh = Unchanged | Replaced(uids: seq<UID>)

  function RoutesFrom(cfg: Config, uids: seq<UID>, index: nat): seq<RouteKey>
    requires index <= |uids|
  {
    Expand(cfg.presence, uids[index..])
  }

  function OfflineFrom(cfg: Config, uids: seq<UID>, index: nat): seq<UID>
    requires index <= |uids|
  {
    Offline(cfg.presence, cfg.collectOffline, uids[index..])
  }

  class ResolveToken {
    var uids: seq<UID>
    var nextIndex: nat
    var pending: seq<RouteKey>
    var done: bool

    constructor (uids: seq<UID>)
      ensures this.uids == uids && nextIndex == 0 && pending == [] && !done && Valid()
    {
      this.uids, nextIndex, pending, done := uids, 0, [], false;
    }

    /** A token that is done has no pending route and no UID left. */
    ghost predicate Valid()
      reads this
    {
      nextIndex <= |uids| && (done ==> pending == [])
    }

    /** The routes that later pages still have to return. */
    function Owed(cfg: Config): seq<RouteKey>
      requires nextIndex <= |uids|
      reads this
    {
      pending + if done then [] else RoutesFrom(cfg, uids, nextIndex)
    }

    function OfflineOwed(cfg: Config): seq<UID>
      requires nextIndex <= |uids|
      reads this
    {
      if done then [] else OfflineFrom(cfg, uids, nextIndex)
    }

    /** Takes over a replaced tag body and finds the place of the cursor string in it. */
    method Refresh(refresh: Refresh, cursor: UID)
      requires Valid()
      modifies `uids, `nextIndex
      ensures Valid()
      ensures refresh.Unchanged? ==> uids == old(uids) && nextIndex == old(nextIndex)
      ensures refresh.Replaced? ==> uids == refresh.uids
      ensures refresh.Replaced? ==>
        if cursor == "" || cursor !in uids then nextIndex == 0
        else nextIndex > 0 && uids[nextIndex - 1] == cursor && cursor !in uids[..nextIndex - 1]
      // A body with the same distinct UIDs does not move the token.
      ensures refresh == Replaced(old(uids)) && Distinct(uids) && "" !in uids ==>
        cursor == CursorAfter(uids[..old(nextIndex)]) ==> uids == old(uids) && nextIndex == old(nextIndex)
    {
      if refresh.Replaced? {
        ghost var before := nextIndex;
        uids := refresh.uids;
        nextIndex := IndexAfterCursor(uids, cursor);
        if before <= |uids| && Distinct(uids) && "" !in uids && cursor == CursorAfter(uids[..before]) && before > 0 {
          assert cursor == uids[before - 1];
          assert uids[nextIndex - 1] == uids[before - 1];
        }
      }
    }

    /**
     One page after the refresh. Its routes followed by what is still owed are what was owed
     before, and so are the offline UIDs; the cursor string stays the last UID read. A page that
     is not the last one is full or reports somebody offline. A failing lookup loses exactly the
     routes that were pending and those of the UIDs it has moved past, at least one, and reports
     none of these UIDs as offline.
     */
    method ResolvePage(cfg: Config, cursor: UID, limit: int, failingLookup: Option<nat>)
        returns (r: Option<Page>, next: UID)
      requires Valid()
      modifies `nextIndex, `pending, `done
      ensures Valid() && uids == old(uids) && old(nextIndex) <= nextIndex
      ensures r.Some? ==> r.value.routes + Owed(cfg) == old(Owed(cfg))
      ensures r.Some? ==> r.value.offline + OfflineOwed(cfg) == old(OfflineOwed(cfg))
      ensures r.Some? ==> |r.value.routes| <= EffectiveLimit(limit, cfg.pageSize)
      ensures r.Some? ==>
        |r.value.routes| <= if limit > 0 then limit else if cfg.pageSize > 0 then cfg.pageSize else 128
      ensures r.Some? ==> (r.value.done <==> done)
      ensures r.Some? && !r.value.done && r.value.offline == [] ==>
        |r.value.routes| == if limit > 0 then limit else if cfg.pageSize > 0 then cfg.pageSize else 128
      ensures r.Some? && !r.value.done ==> old(nextIndex) < nextIndex || |pending| < old(|pending|)
      ensures r.Some? && !r.value.done && r.value.routes == [] ==> nextIndex > 0
      ensures r.Some? && cursor == CursorAfter(uids[..old(nextIndex)]) ==> next == CursorAfter(uids[..nextIndex])
      ensures r.None? ==> failingLookup.Some? && next == cursor && pending == [] && !done && old(nextIndex) < nextIndex
      ensures failingLookup == Some(0) && !old(done) && old(nextIndex) < |uids| ==>
        |old(pending)| < EffectiveLimit(limit, cfg.pageSize) ==> r.None?
      ensures r.None? ==>
        old(Owed(cfg)) == old(pending) + Expand(cfg.presence, uids[old(nextIndex)..nextIndex]) + Owed(cfg)
      ensures r.None? ==>
        old(OfflineOwed(cfg)) == Offline(cfg.presence, cfg.collectOffline, uids[old(nextIndex)..nextIndex])
          + OfflineOwed(cfg)
    {
      hide Expand, Offline, RoutesFrom, OfflineFrom, EffectiveLimit, CursorAfter;
      if done {
        return Some(Page([], [], true)), cursor;
      }
      var room := EffectiveLimit(limit, cfg.pageSize);
      RoomOfPage(limit, cfg.pageSize);
      ghost var at := nextIndex;
      var page := TakePending(room);
      if page != [] && (|page| == room || pending != []) {
        Regroup(page, pending, RoutesFrom(cfg, uids, nextIndex));
        return Some(Page(page, [], false)), cursor;
      }
      var offline, failed;
      page, offline, next, failed := FillPage(cfg, cursor, page, room, failingLookup);
      if failed {
        FailureSkips(cfg, uids, at, nextIndex, old(pending));
        return None, cursor;
      }
      Regroup(page, pending, RoutesFrom(cfg, uids, nextIndex));
      return Some(Page(page, offline, done)), next;
    }

    /** Takes pending routes into a page, as many as there is room for. */
    method TakePending(room: nat) returns (page: seq<RouteKey>)
      requires Valid()
      modifies `pending
      ensures Valid() && page + pending == old(pending)
      ensures |page| == if room > |old(pending)| then |old(pending)| else room
    {
      var taken := if room > |pending| then |pending| else room;
      page := pending[..taken];
      pending := pending[taken..];
    }

    /** Expands the next slice of UIDs into at most `room` routes; what does not fit becomes pending. */
    method ExpandSlice(cfg: Config, room: nat, lookupFails: bool)
        returns (page: seq<RouteKey>, offline: seq<UID>, read: seq<UID>, last: bool, failed: bool)
      requires Valid() && pending == [] && !done && 0 < room
      modifies `nextIndex, `pending
      ensures old(nextIndex) <= nextIndex <= |uids| && read == uids[old(nextIndex)..nextIndex]
      ensures last <==> nextIndex == |uids|
      ensures nextIndex == old(nextIndex) ==> last && page == [] && pending == []
      ensures !failed ==> page + pending + RoutesFrom(cfg, uids, nextIndex) == RoutesFrom(cfg, uids, old(nextIndex))
      ensures !failed ==> offline + OfflineFrom(cfg, uids, nextIndex) == OfflineFrom(cfg, uids, old(nextIndex))
      ensures !failed ==> |page| <= room && (pending != [] ==> |page| == room)
      ensures failed ==> lookupFails && pending == [] && read != []
      ensures lookupFails && old(nextIndex) < |uids| ==> failed
    {
      var want := if EffectivePageSize(cfg.pageSize) < room then EffectivePageSize(cfg.pageSize) else room;
      var at := nextIndex;
      page, offline, failed := [], [], false;
      var (slice, after, ends) := NextUIDPage(uids, at, want);
      nextIndex, read, last := after, slice, ends;
      assert slice == uids[at..after] by {
        assert uids[at..][..after - at] == uids[at..after];
      }
      if slice == [] {
        return;
      }
      if lookupFails {
        failed := true;
        return;
      }
      SliceStep(cfg, uids, at, after, slice);
      hide Expand, Offline, RoutesFrom, OfflineFrom;
      page, pending, offline := ExpandPage(cfg.presence, cfg.collectOffline, slice, room);
    }

    /** The page loop: expands slices of UIDs until the page is full, a UID was offline, or the list ends. */
    method FillPage(cfg: Config, cursor: UID, start: seq<RouteKey>, room: nat, failingLookup: Option<nat>)
        returns (page: seq<RouteKey>, offline: seq<UID>, next: UID, failed: bool)
      requires Valid() && pending == [] && !done && |start| < room
      modifies `nextIndex, `pending, `done
      ensures Valid() && old(nextIndex) <= nextIndex && |page| <= room && (done ==> nextIndex == |uids|)
      ensures !failed ==>
        page + pending + RoutesFrom(cfg, uids, nextIndex) == start + RoutesFrom(cfg, uids, old(nextIndex))
      ensures !failed ==> offline + OfflineFrom(cfg, uids, nextIndex) == OfflineFrom(cfg, uids, old(nextIndex))
      ensures !failed && !done ==> old(nextIndex) < nextIndex
      ensures !failed && !done && offline == [] ==> |page| == room
      ensures !failed && done ==> RoutesFrom(cfg, uids, nextIndex) == [] && OfflineFrom(cfg, uids, nextIndex) == []
      ensures !failed && cursor == CursorAfter(uids[..old(nextIndex)]) ==> next == CursorAfter(uids[..nextIndex])
      ensures failed ==> failingLookup.Some? && pending == [] && !done && old(nextIndex) < nextIndex
      ensures failingLookup == Some(0) && old(nextIndex) < |uids| ==> failed
    {
      hide Expand, Offline, RoutesFrom, OfflineFrom, CursorAfter, EffectiveLimit, Owed, OfflineOwed;
      page, offline, next, failed := start, [], cursor, false;
      var lookups := 0;
      var more := true;
      ghost var total, offlineTotal := start + RoutesFrom(cfg, uids, nextIndex), OfflineFrom(cfg, uids, nextIndex);
      WithNothing(start);
      WithNothing(offlineTotal);
      NobodyBehind(cfg, uids);
      while more && |page| < room
        invariant old(nextIndex) <= nextIndex <= |uids| && |page| <= room && Valid()
          && (done ==> nextIndex == |uids| && !more)
        invariant more ==> pending == [] && !done
        invariant page + pending + RoutesFrom(cfg, uids, nextIndex) == total
        invariant more ==> page + RoutesFrom(cfg, uids, nextIndex) == total
        invariant offline + OfflineFrom(cfg, uids, nextIndex) == offlineTotal
        invariant nextIndex == old(nextIndex) ==> (more && page == start) || done
        invariant (more || done || |page| == room || offline != []) && (pending != [] ==> |page| == room)
        invariant failingLookup == Some(0) && old(nextIndex) < |uids| ==>
          lookups == 0 && more && nextIndex == old(nextIndex)
        invariant cursor == CursorAfter(uids[..old(nextIndex)]) ==> next == CursorAfter(uids[..nextIndex])
        decreases more, |uids| - nextIndex
      {
        ghost var at, before, offlineBefore := nextIndex, page, offline;
        var routes, newOffline, read, last;
        routes, newOffline, read, last, failed := ExpandSlice(cfg, room - |page|, failingLookup == Some(lookups));
        next := LastRead(uids, at, nextIndex, read, next);
        if failed {
          return;
        }
        page, offline := page + routes, offline + newOffline;
        Carry(before, routes, pending, RoutesFrom(cfg, uids, nextIndex), RoutesFrom(cfg, uids, at), total);
        Carry(offlineBefore, newOffline, [], OfflineFrom(cfg, uids, nextIndex), OfflineFrom(cfg, uids, at),
          offlineTotal);
        lookups := lookups + 1;
        if pending != [] {
          more := false;
        } else if last {
          done, more := true, false;
        } else if newOffline != [] {
          more := false;
        }
      }
    }
  }

  /** The cursor string follows the last UID of a slice and stays where it is on an empty one. */
  function LastRead(uids: seq<UID>, ghost at: nat, ghost after: nat, read: seq<UID>, cursor: UID): (next: UID)
    requires at <= after <= |uids| && read == uids[at..after]
    ensures cursor == CursorAfter(uids[..at]) || read != [] ==> next == CursorAfter(uids[..after])
  {
    if read == [] then cursor else assert read[|read| - 1] == uids[..after][after - 1]; read[|read| - 1]
  }

  /** What is owed before a failing lookup: the pending routes, those of the UIDs moved past, and what is left. */
  lemma FailureSkips(cfg: Config, uids: seq<UID>, at: nat, after: nat, pending: seq<RouteKey>)
    requires at <= after <= |uids|
    ensures pending + RoutesFrom(cfg, uids, at)
         == pending + Expand(cfg.presence, uids[at..after]) + ([] + RoutesFrom(cfg, uids, after))
    ensures OfflineFrom(cfg, uids, at)
         == Offline(cfg.presence, cfg.collectOffline, uids[at..after]) + OfflineFrom(cfg, uids, after)
  {
    hide *;
    CutApart(uids, at, after);
    SliceStep(cfg, uids, at, after, uids[at..after]);
    WithNothing(RoutesFrom(cfg, uids, after));
    Regroup(pending, Expand(cfg.presence, uids[at..after]), RoutesFrom(cfg, uids, after));
  }

  lemma NobodyBehind(cfg: Config, uids: seq<UID>)
    ensures RoutesFrom(cfg, uids, |uids|) == [] && OfflineFrom(cfg, uids, |uids|) == []
  {
  }

  lemma SliceStep(cfg: Config, uids: seq<UID>, at: nat, after: nat, slice: seq<UID>)
    requires at <= after <= |uids| && uids[at..] == slice + uids[after..]
    ensures RoutesFrom(cfg, uids, at) == Expand(cfg.presence, slice) + RoutesFrom(cfg, uids, after)
    ensures OfflineFrom(cfg, uids, at)
      == Offline(cfg.presence, cfg.collectOffline, slice) + OfflineFrom(cfg, uids, after)
  {
    ExpandConcat(cfg.presence, slice, uids[after..]);
    OfflineConcat(cfg.presence, cfg.collectOffline, slice, uids[after..]);
  }

  // ---------------------------------------------------------------- driving a tag to its end

  lemma {:induction false} DistinctCounts(s: seq<UID>, x: UID)
    requires Distinct(s)
    ensures multiset(s)[x] <= 1
  {
    if s != [] {
      assert s == [s[0]] + s[1..];
      assert s[0] !in s[1..];
      DistinctCounts(s[1..], x);
    }
  }

  /** Being free of repetitions does not depend on the order. */
  lemma DistinctPermuted(a: seq<UID>, b: seq<UID>)
    requires Distinct(a) && multiset(a) == multiset(b)
    ensures Distinct(b) && forall u :: u in a <==> u in b
  {
    forall i, j | 0 <= i < j < |b| ensures b[i] != b[j] {
      DistinctCounts(a, b[j]);
      assert b == b[..j] + ([b[j]] + b[j + 1..]);
      assert b[i] == b[i] && b[i] in b[..j];
    }
    forall u ensures u in a <==> u in b {
      assert u in multiset(a) <==> u in multiset(b);
    }
  }

  /** The UIDs of the tag body that the leader builds: collected once, partitioned over the leaders of the slots. */
  method BuildTag(source: seq<seq<UID>>, local: nat, leaders: seq<nat>) returns (routable: seq<UID>,
      ghost collected: seq<UID>)
    ensures multiset(routable) == multiset(collected) && Distinct(routable) && "" !in routable
    ensures forall u :: u in collected ==> u in Flatten(source)
    ensures Distinct(Flatten(source)) && "" !in Flatten(source) ==> (collected == Flatten(source) <==> NoGap(source))
  {
    hide *;
    var uids;
    ghost var pages;
    uids, pages := CollectSnapshotUIDs(source);
    collected := uids;
    var partitions;
    ghost var nodes;
    partitions, nodes := PartitionUIDs(local, leaders, uids);
    routable := Routable(partitions);
    RoutableIsAssigned(local, leaders, uids, partitions, nodes);
    PartitionConserves(local, leaders, uids, nodes);
    UniqueElements(Flatten(source[..pages]));
    DistinctPermuted(collected, routable);
    PrefixOfFlatten(source, pages);
    if Distinct(Flatten(source)) && "" !in Flatten(source) {
      CollectsAllExactlyWithoutGap(source, pages);
    }
  }

  /** Lists every UID of the tag body. */
  method Routable(partitions: seq<NodePartition>) returns (uids: seq<UID>)
    ensures uids == RoutableUIDs(partitions)
  {
    uids := [];
    assert partitions[0..] == partitions;
    for k := 0 to |partitions|
      invariant uids + RoutableUIDs(partitions[k..]) == RoutableUIDs(partitions)
    {
      assert partitions[k..][1..] == partitions[k + 1..];
      assert uids + (partitions[k].uids + RoutableUIDs(partitions[k + 1..]))
        == uids + partitions[k].uids + RoutableUIDs(partitions[k + 1..]);
      uids := uids + partitions[k].uids;
    }
    assert uids + [] == uids;
  }

  /**
   Drives a tag body to Done, with any page limit at every call and with the body replaced by
   an equal one before any of the calls. The pages concatenate to the in-order expansion.
   */
  method DrivePages(cfg: Config, uids: seq<UID>, limits: nat -> int, replaced: nat -> bool)
      returns (pages: seq<Page>, routes: seq<RouteKey>, offline: seq<UID>)
    requires Distinct(uids) && "" !in uids
    ensures routes == Expand(cfg.presence, uids) && offline == Offline(cfg.presence, cfg.collectOffline, uids)
    ensures PagesOfDrive(pages, limits, cfg.pageSize) && pages != [] && pages[|pages| - 1].done
    ensures forall i | 0 <= i < |pages| && limits(i) > 0 :: |pages[i].routes| <= limits(i)
  {
    hide *;
    var token := new ResolveToken(uids);
    ghost var total, offlineTotal := Expand(cfg.presence, uids), Offline(cfg.presence, cfg.collectOffline, uids);
    EverythingOwed(cfg, token, uids);
    var cursor := "";
    var resolved := false;
    pages, routes, offline := [], [], [];
    AllDelivered(routes, total);
    AllDelivered(offline, offlineTotal);
    NoPageYet(limits, cfg.pageSize);
    while !resolved
      invariant token.Valid() && token.uids == uids && token.nextIndex <= |uids|
      invariant cursor == CursorAfter(uids[..token.nextIndex])
      invariant Conserved(routes, token.Owed(cfg), total)
      invariant Conserved(offline, token.OfflineOwed(cfg), offlineTotal)
      invariant PagesOfDrive(pages, limits, cfg.pageSize)
      invariant if resolved then token.done && pages != [] && pages[|pages| - 1].done
                else pages != [] ==> !pages[|pages| - 1].done
      decreases !resolved, |uids| - token.nextIndex, |token.pending|
    {
      ghost var owed, offlineOwed := token.Owed(cfg), token.OfflineOwed(cfg);
      var page;
      page, cursor := ResolveOne(cfg, token, cursor, limits(|pages|), replaced(|pages|));
      DeliverMore(routes, owed, total, page.routes, token.Owed(cfg));
      DeliverMore(offline, offlineOwed, offlineTotal, page.offline, token.OfflineOwed(cfg));
      OneMorePage(pages, limits, cfg.pageSize, page);
      pages, routes, offline := pages + [page], routes + page.routes, offline + page.offline;
      // The driver also gives up on an empty page before any UID was read; that never happens here.
      resolved := page.done || (page.routes == [] && cursor == "");
    }
    NothingOwed(cfg, token);
    OwnLimitsAreKept(pages, limits, cfg.pageSize);
    AllDelivered(routes, total);
    AllDelivered(offline, offlineTotal);
  }

  lemma EverythingOwed(cfg: Config, token: ResolveToken, uids: seq<UID>)
    requires token.uids == uids && token.nextIndex == 0 && token.pending == [] && !token.done
    ensures token.Owed(cfg) == Expand(cfg.presence, uids)
    ensures token.OfflineOwed(cfg) == Offline(cfg.presence, cfg.collectOffline, uids)
    ensures CursorAfter(uids[..0]) == ""
  {
    assert uids[0..] == uids && uids[..0] == [];
    assert [] + RoutesFrom(cfg, uids, 0) == RoutesFrom(cfg, uids, 0);
  }

  lemma NothingOwed(cfg: Config, token: ResolveToken)
    requires token.Valid() && token.done
    ensures token.Owed(cfg) == [] && token.OfflineOwed(cfg) == []
  {
  }

  /** A page of a run in which no lookup fails, perhaps after the tag body was replaced by an equal one. */
  method ResolveOne(cfg: Config, token: ResolveToken, cursor: UID, limit: int, replaced: bool) returns (page: Page,
      next: UID)
    requires token.Valid() && cursor == CursorAfter(token.uids[..token.nextIndex])
    requires Distinct(token.uids) && "" !in token.uids
    modifies token
    ensures token.Valid() && token.uids == old(token.uids) && old(token.nextIndex) <= token.nextIndex <= |token.uids|
    ensures page.routes + token.Owed(cfg) == old(token.Owed(cfg))
    ensures page.offline + token.OfflineOwed(cfg) == old(token.OfflineOwed(cfg))
    ensures |page.routes| <= EffectiveLimit(limit, cfg.pageSize) && (page.done <==> token.done)
    ensures !page.done ==> old(token.nextIndex) < token.nextIndex || |token.pending| < old(|token.pending|)
    ensures next == CursorAfter(token.uids[..token.nextIndex])
    ensures !page.done && page.routes == [] ==> next != ""
  {
    hide Expand, Offline, RoutesFrom, OfflineFrom, EffectiveLimit, Distinct;
    token.Refresh(if replaced then Replaced(token.uids) else Unchanged, cursor);
    var r;
    r, next := token.ResolvePage(cfg, cursor, limit, None);
    page := r.value;
    if token.nextIndex > 0 {
      assert token.uids[..token.nextIndex][token.nextIndex - 1] in token.uids;
    }
  }

  /**
   The tag path from snapshot to last page. Its routes are those of the collected UIDs; with
   distinct non-empty UIDs and no page hidden behind an empty one they are, up to order, the
   routes of every subscriber, which is what the local resolver delivers in order.
   */
  method Drive(cfg: Config, source: seq<seq<UID>>, local: nat, leaders: seq<nat>,
      limits: nat -> int, replaced: nat -> bool)
      returns (pages: seq<Page>, routes: seq<RouteKey>, offline: seq<UID>, ghost collected: seq<UID>)
    ensures multiset(routes) == multiset(Expand(cfg.presence, collected))
    ensures PagesOfDrive(pages, limits, cfg.pageSize) && pages != [] && pages[|pages| - 1].done
    ensures forall i | 0 <= i < |pages| && limits(i) > 0 :: |pages[i].routes| <= limits(i)
    ensures Distinct(Flatten(source)) && "" !in Flatten(source) ==> (collected == Flatten(source) <==> NoGap(source))
    ensures Distinct(Flatten(source)) && "" !in Flatten(source) && NoGap(source) ==>
      multiset(routes) == multiset(Expand(cfg.presence, Flatten(source)))
    ensures Distinct(offline)
    ensures forall u :: u in offline <==> cfg.collectOffline && u in collected && cfg.presence(u) == []
  {
    hide *;
    var uids;
    uids, collected := BuildTag(source, local, leaders);
    pages, routes, offline := DrivePages(cfg, uids, limits, replaced);
    ExpandPermuted(cfg.presence, uids, collected);
    OfflineExactlyOnce(cfg.presence, uids);
    DistinctPermuted(uids, collected);
    assert cfg.collectOffline || offline == [];
    assert Distinct(offline) by {
      NothingIsDistinct();
    }
  }

  lemma NothingIsDistinct()
    ensures Distinct<UID>([])
  {
  }

  // ---------------------------------------------------------------- what a failing lookup loses

  lemma OnlyOne(cfg: Config, route: RouteKey)
    requires cfg.presence("a") == [route]
    ensures Expand(cfg.presence, ["a"]) == [route] && RoutesFrom(cfg, ["a"], 1) == []
      && OfflineFrom(cfg, ["a"], 1) == []
  {
    assert ["a"][1..] == [];
  }

  /** The lookup of the only subscriber fails: the retry says done, and the route was never returned. */
  method FailedLookupLosesRoutes(route: RouteKey) returns (cfg: Config, failed: Option<Page>, retried: Option<Page>)
    ensures Expand(cfg.presence, ["a"]) == [route]
    ensures failed.None? && retried == Some(Page([], [], true))
  {
    cfg := Config(_ => [route], false, 128);
    OnlyOne(cfg, route);
    hide Expand, Offline, RoutesFrom, OfflineFrom;
    var token := new ResolveToken(["a"]);
    var cursor;
    failed, cursor := token.ResolvePage(cfg, "", 1, Some(0));
    assert token.nextIndex == 1;
    retried, cursor := token.ResolvePage(cfg, cursor, 1, None);
    assert retried.value.routes + token.Owed(cfg) == [] && retried.value.offline + token.OfflineOwed(cfg) == [];
  }
}
