/**
 The sharded, lazily pruned traffic counters (internal/app/network_observability.go:176-253,
 313-358, 457-557, 579-587, 739-785). Times are nanoseconds since the epoch.
 */
module NetworkBuckets {
  import opened Options
  import opened Ascending
  import opened Sequences

  /** Sample precision, pruning interval and history step, in nanoseconds. */
  const BUCKET: nat := 100_000_000
  const PRUNE_INTERVAL: nat := 1_000_000_000
  const STEP: nat := 5_000_000_000

  const SHARDS: nat := 16

  datatype Key = Key(bucket: nat, rx: bool, msgType: nat)

  datatype Sample = Sample(at: nat, rx: bool, msgType: nat, bytes: int)

  function Truncate(at: nat): (r: nat)
    ensures r <= at < r + BUCKET
  {
    at - at % BUCKET
  }

  function KeyOf(s: Sample): Key {
    Key(Truncate(s.at), s.rx, s.msgType)
  }

  /** A bucket expires when it ends at or before the cutoff. */
  predicate Expired(bucket: nat, cutoff: int) {
    bucket + BUCKET <= cutoff
  }

  function ShardOf(key: Key): (i: nat)
    ensures i < SHARDS
  {
    (key.msgType + key.bucket / BUCKET + if key.rx then SHARDS / 2 else 0) % SHARDS
  }

  predicate ShouldPrune(last: Option<nat>, now: nat) {
    last.None? || now < last.value || now - last.value >= PRUNE_INTERVAL
  }

  // ---------------------------------------------------------------- the simple specification

  /** The one map that is never pruned: the bytes of all samples of each key. */
  function Recorded(samples: seq<Sample>): map<Key, int>
    decreases |samples|
  {
    if samples == [] then map[]
    else
      var m, s := Recorded(samples[..|samples| - 1]), samples[|samples| - 1];
      if s.bytes <= 0 then m else Bump(m, KeyOf(s), s.bytes)
  }

  function Bump(m: map<Key, int>, key: Key, bytes: int): map<Key, int> {
    m[key := (if key in m then m[key] else 0) + bytes]
  }

  function Unexpired(m: map<Key, int>, cutoff: int): map<Key, int> {
    map k | k in m && !Expired(k.bucket, cutoff) :: m[k]
  }

  /** A bucket is kept exactly while it ends after the cutoff. */
  lemma UnexpiredIs(m: map<Key, int>, cutoff: int, k: Key)
    ensures k in Unexpired(m, cutoff) <==> k in m && cutoff < k.bucket + 100_000_000
    ensures k in Unexpired(m, cutoff) ==> Unexpired(m, cutoff)[k] == m[k]
  {
  }

  lemma RecordedSnoc(samples: seq<Sample>, s: Sample)
    ensures Recorded(samples + [s]) ==
      if s.bytes <= 0 then Recorded(samples) else Bump(Recorded(samples), KeyOf(s), s.bytes)
  {
    assert (samples + [s])[..|samples|] == samples;
  }

  /** The bytes of all samples of one direction and type within one 100 ms bucket. */
  function BytesIn(samples: seq<Sample>, rx: bool, msgType: nat, from: nat): int
    decreases |samples|
  {
    if samples == [] then 0
    else
      var s := samples[|samples| - 1];
      BytesIn(samples[..|samples| - 1], rx, msgType, from) +
        if s.bytes > 0 && s.rx == rx && s.msgType == msgType && from <= s.at < from + 100_000_000 then s.bytes else 0
  }

  /** What is recorded: one count for each 100 ms in which there were bytes, direction and type apart. */
  lemma {:induction false} RecordedIs(samples: seq<Sample>, k: Key)
    ensures k in Recorded(samples) ==> k.bucket % 100_000_000 == 0
    ensures k.bucket % 100_000_000 == 0 ==>
      BytesIn(samples, k.rx, k.msgType, k.bucket) == if k in Recorded(samples) then Recorded(samples)[k] else 0
    decreases |samples|
  {
    if samples != [] {
      var init, s := samples[..|samples| - 1], samples[|samples| - 1];
      RecordedIs(init, k);
      SampleKey(s, k);
      hide KeyOf;
    }
  }

  lemma SampleKey(s: Sample, k: Key)
    ensures KeyOf(s).bucket % 100_000_000 == 0
    ensures k.bucket % 100_000_000 == 0 ==>
      (KeyOf(s) == k <==> s.rx == k.rx && s.msgType == k.msgType && k.bucket <= s.at < k.bucket + 100_000_000)
  {
  }

  method PruneMap(buckets: map<Key, int>, cutoff: int) returns (r: map<Key, int>)
    ensures r == Unexpired(buckets, cutoff)
  {
    r := buckets;
    var left := buckets.Keys;
    while left != {}
      invariant left <= buckets.Keys
      invariant r == map k | k in buckets && (k in left || !Expired(k.bucket, cutoff)) :: buckets[k]
      decreases left
    {
      var key :| key in left;
      left := left - {key};
      if Expired(key.bucket, cutoff) {
        r := r - {key};
      }
    }
  }

  // ---------------------------------------------------------------- the store

  /** The highest cutoff that some pruning used, if there was any. */
  function Highest(highest: Option<int>, cutoff: int): Option<int> {
    if highest.Some? && highest.value >= cutoff then highest else Some(cutoff)
  }

  /** The recorded keys that a pruning at the cutoff takes out of shard i, and out of the whole store. */
  ghost function ExpiredIn(full: map<Key, int>, cutoff: int, i: nat): set<Key> {
    set k | k in full && Expired(k.bucket, cutoff) && ShardOf(k) == i
  }

  ghost function AllExpired(full: map<Key, int>, cutoff: int): set<Key> {
    set k | k in full && Expired(k.bucket, cutoff)
  }

  /**
   A shard holds its own keys only. A key of which something was lost by pruning is missing or
   short, and every other recorded key is there with its full count.
   */
  ghost predicate ShardHolds(shard: map<Key, int>, i: nat, full: map<Key, int>, lost: set<Key>) {
    && (forall k :: k in full ==> full[k] > 0)
    && (forall k :: k in lost ==> k in full)
    && (forall k :: k in shard ==> ShardOf(k) == i && k in full && shard[k] > 0)
    && (forall k :: k in shard && k in lost ==> shard[k] < full[k])
    && (forall k :: k in full && ShardOf(k) == i && k !in lost ==> k in shard && shard[k] == full[k])
  }

  /** Everything that was lost had expired at the highest cutoff. */
  ghost predicate LostBelow(lost: set<Key>, highest: Option<int>) {
    forall k :: k in lost ==> highest.Some? && Expired(k.bucket, highest.value)
  }

  lemma PruneHolds(shard: map<Key, int>, i: nat, full: map<Key, int>, lost: set<Key>, cutoff: int)
    requires ShardHolds(shard, i, full, lost)
    ensures ShardHolds(Unexpired(shard, cutoff), i, full, lost + ExpiredIn(full, cutoff, i))
  {
    hide ShardOf;
  }

  lemma OtherHolds(shard: map<Key, int>, j: nat, full: map<Key, int>, lost: set<Key>, cutoff: int, i: nat)
    requires ShardHolds(shard, j, full, lost) && i != j
    ensures ShardHolds(shard, j, full, lost + ExpiredIn(full, cutoff, i))
  {
    hide ShardOf;
  }

  lemma PruneLoses(full: map<Key, int>, lost: set<Key>, highest: Option<int>, cutoff: int, i: nat)
    requires LostBelow(lost, highest)
    ensures LostBelow(lost + ExpiredIn(full, cutoff, i), Highest(highest, cutoff))
  {
    hide ShardOf;
  }

  lemma BumpHolds(shard: map<Key, int>, i: nat, full: map<Key, int>, lost: set<Key>, key: Key, bytes: int)
    requires ShardHolds(shard, i, full, lost) && bytes > 0
    ensures ShardHolds(if ShardOf(key) == i then Bump(shard, key, bytes) else shard, i, Bump(full, key, bytes), lost)
  {
    hide ShardOf;
  }

  /** The keys that pruning the first i shards takes out. */
  ghost function ExpiredUpTo(full: map<Key, int>, cutoff: int, i: nat): set<Key> {
    set k | k in full && Expired(k.bucket, cutoff) && ShardOf(k) < i
  }

  lemma ExpiredMore(lost: set<Key>, full: map<Key, int>, cutoff: int, i: nat)
    ensures lost + ExpiredUpTo(full, cutoff, i) + ExpiredIn(full, cutoff, i) == lost + ExpiredUpTo(full, cutoff, i + 1)
    ensures lost + ExpiredUpTo(full, cutoff, 0) == lost
    ensures ExpiredUpTo(full, cutoff, SHARDS) == AllExpired(full, cutoff)
    ensures ExpiredIn(full, cutoff, i) <= AllExpired(full, cutoff)
  {
    hide ShardOf;
  }

  class TrafficStore {
    const window: nat
    const buckets: array<map<Key, int>>
    const pruned: array<Option<nat>>
    var lastPrune: Option<nat>
    ghost var samples: seq<Sample>
    ghost var lost: set<Key>
    ghost var highest: Option<int>

    constructor (window: nat)
      ensures this.window == window && Valid() && samples == [] && lost == {} && highest == None && lastPrune == None
      ensures fresh(buckets) && fresh(pruned)
    {
      this.window := window;
      buckets := new map<Key, int>[SHARDS](_ => map[]);
      pruned := new Option<nat>[SHARDS](_ => None);
      lastPrune, samples, lost, highest := None, [], {}, None;
    }

    ghost predicate Valid()
      reads this, buckets
    {
      && buckets.Length == pruned.Length == SHARDS
      && LostBelow(lost, highest)
      && forall i: nat | i < SHARDS :: ShardHolds(buckets[i], i, Recorded(samples), lost)
    }

    /** Prunes one shard. */
    method PruneShard(i: nat, cutoff: int)
      requires Valid() && i < SHARDS
      modifies this`highest, this`lost, buckets
      ensures Valid() && highest == Highest(old(highest), cutoff)
      ensures lost == old(lost) + ExpiredIn(Recorded(samples), cutoff, i)
      ensures buckets[i] == Unexpired(old(buckets[i]), cutoff)
      ensures forall j: nat | j < SHARDS && j != i :: buckets[j] == old(buckets[j])
    {
      hide Recorded, ShardHolds, Unexpired, LostBelow, ExpiredIn;
      ghost var full := Recorded(samples);
      PruneHolds(buckets[i], i, full, lost, cutoff);
      PruneLoses(full, lost, highest, cutoff, i);
      forall j: nat | j < SHARDS && j != i ensures ShardHolds(buckets[j], j, full, lost + ExpiredIn(full, cutoff, i)) {
        OtherHolds(buckets[j], j, full, lost, cutoff, i);
      }
      var kept := PruneMap(buckets[i], cutoff);
      buckets[i] := kept;
      highest, lost := Highest(highest, cutoff), lost + ExpiredIn(full, cutoff, i);
    }

    /**
     Counts one sample. The shard, and then the whole store, are pruned when their interval has
     passed; that is exactly what takes recorded keys out.
     */
    method Add(s: Sample, tryLock: bool)
      requires Valid()
      modifies this, buckets, pruned
      ensures Valid() && samples == old(samples) + [s]
      ensures highest == old(highest) || highest == Highest(old(highest), s.at as int - window)
      ensures var cutoff, full := s.at as int - window, Recorded(samples);
        lost == old(lost) +
          if s.bytes <= 0 then {}
          else if tryLock && ShouldPrune(old(lastPrune), s.at) then AllExpired(full, cutoff)
          else if ShouldPrune(old(pruned[ShardOf(KeyOf(s))]), s.at) then ExpiredIn(full, cutoff, ShardOf(KeyOf(s)))
          else {}
      // A pruning of the whole store is noted in every shard, one of the sample's own shard in that shard.
      ensures forall j: nat | j < SHARDS ::
        pruned[j] ==
          if s.bytes > 0 && ((tryLock && ShouldPrune(old(lastPrune), s.at))
              || (j == ShardOf(KeyOf(s)) && ShouldPrune(old(pruned[j]), s.at))) then Some(s.at)
          else old(pruned[j])
    {
      RecordedSnoc(samples, s);
      if s.bytes <= 0 {
        samples := samples + [s];
        return;
      }
      AddToShard(s);
      hide Recorded, ShardHolds, ShardOf, AllExpired, ExpiredIn, LostBelow, Unexpired, KeyOf, ShouldPrune, Highest;
      PruneFor(ShardOf(KeyOf(s)), s.at as int - window, s.at, tryLock);
    }

    /** The two prunings after a sample went to shard i: of that shard, and of the whole store. */
    method PruneFor(i: nat, cutoff: int, now: nat, tryLock: bool)
      requires Valid() && i < SHARDS
      modifies this`lastPrune, this`highest, this`lost, buckets, pruned
      ensures Valid()
      ensures highest == old(highest) || highest == Highest(old(highest), cutoff)
      ensures lost == old(lost) +
        if tryLock && ShouldPrune(old(lastPrune), now) then AllExpired(Recorded(samples), cutoff)
        else if ShouldPrune(old(pruned[i]), now) then ExpiredIn(Recorded(samples), cutoff, i)
        else {}
      ensures forall j: nat | j < SHARDS ::
        pruned[j] ==
          if (tryLock && ShouldPrune(old(lastPrune), now)) || (j == i && ShouldPrune(old(pruned[j]), now))
            then Some(now)
          else old(pruned[j])
    {
      hide Recorded, ShardHolds, AllExpired, ExpiredIn, LostBelow, ShouldPrune, Highest;
      OwnWithinAll(lost, Recorded(samples), cutoff, i);
      HighestTwice(highest, cutoff);
      PruneOwn(i, cutoff, now);
      PruneForWrite(cutoff, now, tryLock);
    }

    lemma OwnWithinAll(before: set<Key>, full: map<Key, int>, cutoff: int, i: nat)
      ensures before + ExpiredIn(full, cutoff, i) + AllExpired(full, cutoff) == before + AllExpired(full, cutoff)
      ensures before + {} == before && before + ExpiredIn(full, cutoff, i) + {} == before + ExpiredIn(full, cutoff, i)
    {
      ExpiredMore(before, full, cutoff, i);
      hide ExpiredIn, AllExpired;
    }

    lemma HighestTwice(before: Option<int>, cutoff: int)
      ensures Highest(Highest(before, cutoff), cutoff) == Highest(before, cutoff)
    {
    }

    /** Prunes the shard that a sample went to when its own interval has passed. */
    method PruneOwn(i: nat, cutoff: int, now: nat)
      requires Valid() && i < SHARDS
      modifies this`highest, this`lost, buckets, pruned
      ensures Valid()
      ensures highest == if ShouldPrune(old(pruned[i]), now) then Highest(old(highest), cutoff) else old(highest)
      ensures lost == old(lost) +
        if ShouldPrune(old(pruned[i]), now) then ExpiredIn(Recorded(samples), cutoff, i) else {}
      ensures forall j: nat | j < SHARDS ::
        pruned[j] == if j == i && ShouldPrune(old(pruned[i]), now) then Some(now) else old(pruned[j])
    {
      if ShouldPrune(pruned[i], now) {
        hide *;
        pruned[i] := Some(now);
        PruneShard(i, cutoff);
      }
    }

    method AddToShard(s: Sample)
      requires Valid() && s.bytes > 0
      modifies this`samples, buckets
      ensures Valid() && samples == old(samples) + [s]
    {
      RecordedSnoc(samples, s);
      hide Recorded, ShardHolds, ShardOf, Truncate, Bump;
      var key, i := KeyOf(s), ShardOf(KeyOf(s));
      forall j: nat | j < SHARDS
        ensures ShardHolds(if i == j then Bump(buckets[j], key, s.bytes)
          else buckets[j], j, Recorded(samples + [s]), lost)
      {
        BumpHolds(buckets[j], j, Recorded(samples), lost, key, s.bytes);
      }
      buckets[i] := Bump(buckets[i], key, s.bytes);
      samples := samples + [s];
    }

    /** Prunes every shard at most once per interval; gives up when another writer is doing it. */
    method PruneForWrite(cutoff: int, now: nat, tryLock: bool)
      requires Valid()
      modifies this`lastPrune, this`highest, this`lost, buckets, pruned
      ensures Valid()
      ensures highest == old(highest) || highest == Highest(old(highest), cutoff)
      ensures lost == old(lost) +
        if tryLock && ShouldPrune(old(lastPrune), now) then AllExpired(Recorded(samples), cutoff) else {}
      ensures forall i: nat | i < SHARDS ::
        pruned[i] == if tryLock && ShouldPrune(old(lastPrune), now) then Some(now) else old(pruned[i])
      // It is due the first time, when the clock went back, and when a second has passed.
      ensures
        var before := old(lastPrune);
        if tryLock && (before.None? || now < before.value || before.value + 1_000_000_000 <= now) then
          && lastPrune == Some(now)
          && forall i: nat | i < SHARDS :: pruned[i] == Some(now) && buckets[i] == Unexpired(old(buckets[i]), cutoff)
        else
          && lastPrune == before
          && forall i: nat | i < SHARDS :: pruned[i] == old(pruned[i]) && buckets[i] == old(buckets[i])
    {
      hide Recorded, AllExpired, Unexpired, Highest, ShardHolds, LostBelow;
      if !tryLock || !ShouldPrune(lastPrune, now) {
        return;
      }
      lastPrune := Some(now);
      PruneShards(cutoff, now);
    }

    /** Prunes every shard. */
    method PruneShards(cutoff: int, now: nat)
      requires Valid()
      modifies this`highest, this`lost, buckets, pruned
      ensures Valid() && highest == Highest(old(highest), cutoff)
      ensures lost == old(lost) + AllExpired(Recorded(samples), cutoff)
      ensures forall i: nat | i < SHARDS :: pruned[i] == Some(now) && buckets[i] == Unexpired(old(buckets[i]), cutoff)
    {
      assert buckets.Length == pruned.Length == SHARDS;
      hide *;
      ghost var full := Recorded(samples);
      ExpiredMore(lost, full, cutoff, 0);
      for i: nat := 0 to SHARDS
        invariant Valid() && samples == old(samples)
        invariant highest == if i == 0 then old(highest) else Highest(old(highest), cutoff)
        invariant lost == old(lost) + ExpiredUpTo(full, cutoff, i)
        invariant forall j: nat | j < SHARDS ::
          buckets[j] == if j < i then Unexpired(old(buckets[j]), cutoff) else old(buckets[j])
        invariant forall j: nat | j < i :: pruned[j] == Some(now)
      {
        ExpiredMore(old(lost), full, cutoff, i);
        PruneShard(i, cutoff);
        pruned[i] := Some(now);
      }
    }

    /**
     Collects what is not expired at the cutoff. That is exactly what one map that is never
     pruned would give if and only if everything that earlier prunings took out is expired now;
     it is, in particular, when no earlier pruning used a higher cutoff.
     */
    method Snapshot(cutoff: int) returns (out: map<Key, int>)
      requires Valid()
      modifies this`highest, this`lost, buckets
      ensures Valid() && highest == Highest(old(highest), cutoff)
      ensures lost == old(lost) + AllExpired(Recorded(samples), cutoff)
      ensures out == Unexpired(Recorded(samples), cutoff) <==> forall k :: k in old(lost) ==> Expired(k.bucket, cutoff)
      ensures old(highest).None? || old(highest).value <= cutoff ==> out == Unexpired(Recorded(samples), cutoff)
      ensures forall k :: k in out ==> cutoff < k.bucket + 100_000_000
      ensures forall k ::
        k in out ==> k in Recorded(samples) && !Expired(k.bucket, cutoff) && 0 < out[k] <= Recorded(samples)[k]
      ensures forall i: nat | i < SHARDS :: buckets[i] == Unexpired(old(buckets[i]), cutoff)
    {
      out := map[];
      ghost var full := Recorded(samples);
      hide Recorded, ShardHolds, LostBelow, ExpiredIn, ExpiredUpTo, AllExpired, Unexpired, Collected;
      ExpiredMore(lost, full, cutoff, 0);
      NothingCollected(buckets[0], full, cutoff, lost);
      for i: nat := 0 to SHARDS
        invariant Valid() && samples == old(samples)
        invariant highest == if i == 0 then old(highest) else Highest(old(highest), cutoff)
        invariant lost == old(lost) + ExpiredUpTo(full, cutoff, i)
        invariant Collected(out, i, full, cutoff, old(lost))
        invariant forall j: nat | j < SHARDS ::
          buckets[j] == if j < i then Unexpired(old(buckets[j]), cutoff) else old(buckets[j])
      {
        ExpiredMore(old(lost), full, cutoff, i);
        CollectMore(out, i, full, cutoff, old(lost), lost, buckets[i]);
        PruneShard(i, cutoff);
        out := out + buckets[i];
      }
      CollectedAll(out, full, cutoff, old(lost), old(highest));
    }
  }

  /** The unexpired keys of the first i shards: whatever was lost is missing or short, and the rest is complete. */
  ghost predicate Collected(out: map<Key, int>, i: nat, full: map<Key, int>, cutoff: int, lost: set<Key>) {
    && (forall k :: k in lost ==> k in full)
    && (forall k :: k in out ==> k in full && !Expired(k.bucket, cutoff) && ShardOf(k) < i && 0 < out[k] <= full[k])
    && (forall k :: k in out && k in lost ==> out[k] < full[k])
    && (forall k ::
      k in full && !Expired(k.bucket, cutoff) && ShardOf(k) < i && k !in lost ==> k in out && out[k] == full[k])
  }

  lemma NothingCollected(first: map<Key, int>, full: map<Key, int>, cutoff: int, lost: set<Key>)
    requires ShardHolds(first, 0, full, lost)
    ensures Collected(map[], 0, full, cutoff, lost)
  {
  }

  /** What is pruned in between has expired, so it makes no difference to the snapshot. */
  lemma CollectMore(out: map<Key, int>, i: nat, full: map<Key, int>, cutoff: int, before: set<Key>, lost: set<Key>,
      shard: map<Key, int>)
    requires Collected(out, i, full, cutoff, before) && ShardHolds(shard, i, full, lost)
    requires lost == before + ExpiredUpTo(full, cutoff, i)
    ensures Collected(out + Unexpired(shard, cutoff), i + 1, full, cutoff, before)
  {
    hide ShardOf;
  }

  lemma CollectedAll(out: map<Key, int>, full: map<Key, int>, cutoff: int, lost: set<Key>, highest: Option<int>)
    requires Collected(out, SHARDS, full, cutoff, lost) && LostBelow(lost, highest)
    ensures out == Unexpired(full, cutoff) <==> forall k :: k in lost ==> Expired(k.bucket, cutoff)
    ensures highest.None? || highest.value <= cutoff ==> out == Unexpired(full, cutoff)
    ensures forall k :: k in out ==> k in full && !Expired(k.bucket, cutoff) && 0 < out[k] <= full[k]
  {
    hide ShardOf;
    if k :| k in lost && !Expired(k.bucket, cutoff) {
      assert k in Unexpired(full, cutoff) && Unexpired(full, cutoff)[k] == full[k];
    }
  }

  // ---------------------------------------------------------------- whole runs

  /** One thing that happens to the store: a sample is recorded, or a snapshot is taken at some time. */
  datatype Event = Record(sample: Sample, tryLock: bool) | Read(now: nat)
  {
    function Time(): nat {
      if Record? then sample.at else now
    }
  }

  ghost predicate NonDecreasing(events: seq<Event>) {
    forall i, j | 0 <= i < j < |events| :: events[i].Time() <= events[j].Time()
  }

  function SamplesOf(events: seq<Event>): seq<Sample>
    decreases |events|
  {
    if events == [] then []
    else
      var last := events[|events| - 1];
      SamplesOf(events[..|events| - 1]) + if last.Record? then [last.sample] else []
  }

  /** What one map that is never pruned would answer to the reads, in order. */
  function Answers(window: nat, events: seq<Event>): seq<map<Key, int>>
    decreases |events|
  {
    if events == [] then []
    else
      var init, last := events[..|events| - 1], events[|events| - 1];
      Answers(window, init) +
        if last.Read? then [Unexpired(Recorded(SamplesOf(init)), last.now as int - window)] else []
  }

  lemma RecordedAnswer(window: nat, events: seq<Event>, k: nat)
    requires k < |events|
    ensures events[k].Record? ==>
      SamplesOf(events[..k + 1]) == SamplesOf(events[..k]) + [events[k].sample]
        && Answers(window, events[..k + 1]) == Answers(window, events[..k])
    ensures events[k].Read? ==>
      var answer := Unexpired(Recorded(SamplesOf(events[..k])), events[k].now as int - window);
      SamplesOf(events[..k + 1]) == SamplesOf(events[..k])
        && Answers(window, events[..k + 1]) == Answers(window, events[..k]) + [answer]
  {
    assert events[..k + 1][..k] == events[..k];
  }

  /** A read no earlier than every pruning so far. */
  method ReadAt(store: TrafficStore, now: nat) returns (out: map<Key, int>)
    requires store.Valid() && (store.highest.Some? ==> store.highest.value <= now as int - store.window)
    modifies store, store.buckets
    ensures store.Valid() && store.samples == old(store.samples)
    ensures out == Unexpired(Recorded(store.samples), now as int - store.window)
    ensures store.highest == Some(now as int - store.window)
  {
    hide ShardHolds, Recorded, Unexpired, ShardOf, LostBelow, AllExpired;
    out := store.Snapshot(now as int - store.window);
  }

  /** A sample no earlier than every pruning so far. */
  method RecordAt(store: TrafficStore, sample: Sample, tryLock: bool)
    requires store.Valid() && (store.highest.Some? ==> store.highest.value <= sample.at as int - store.window)
    modifies store, store.buckets, store.pruned
    ensures store.Valid() && store.samples == old(store.samples) + [sample]
    ensures store.highest.Some? ==> store.highest.value <= sample.at as int - store.window
  {
    hide ShardHolds, Recorded, Unexpired, ShardOf, LostBelow, AllExpired, ExpiredIn, KeyOf, ShouldPrune;
    store.Add(sample, tryLock);
  }

  /** Under a clock that never goes back, the sharded and pruned store answers every read as the simple map does. */
  method Replay(window: nat, events: seq<Event>) returns (answers: seq<map<Key, int>>)
    requires NonDecreasing(events)
    ensures answers == Answers(window, events)
  {
    var store := new TrafficStore(window);
    answers := [];
    assert events[..0] == [];
    for k: nat := 0 to |events|
      invariant store.Valid() && store.window == window && fresh(store) && fresh(store.buckets) && fresh(store.pruned)
      invariant store.samples == SamplesOf(events[..k]) && answers == Answers(window, events[..k])
      invariant store.highest.Some? ==> k > 0 && store.highest.value <= events[k - 1].Time() as int - window
    {
      assert k > 0 ==> events[k - 1].Time() <= events[k].Time();
      hide ShardHolds, Recorded, Unexpired, NonDecreasing, SamplesOf, Answers, LostBelow, AllExpired, ExpiredIn,
        ShardOf, KeyOf, ShouldPrune;
      RecordedAnswer(window, events, k);
      match events[k] {
        case Record(sample, tryLock) => RecordAt(store, sample, tryLock);
        case Read(now) =>
          var out := ReadAt(store, now);
          answers := answers + [out];
      }
    }
    assert events[..|events|] == events;
  }

  lemma OneSample(s: Sample)
    requires s.bytes > 0
    ensures Recorded([s]) == map[KeyOf(s) := s.bytes]
  {
    RecordedSnoc([], s);
    assert [] + [s] == [s];
  }

  /**
   A clock that goes back is needed for a miss, and not enough for one. A snapshot at a later
   time takes the only sample out, and the next one at an earlier time misses it; when the
   later time is not past the sample's window, the same two snapshots agree with the simple map.
   */
  method RewoundClock(later: nat) returns (seen: map<Key, int>)
    ensures var full := Recorded([Sample(BUCKET, false, 0, 7)]);
      && full == map[Key(BUCKET, false, 0) := 7]
      && (seen == Unexpired(full, BUCKET) <==> later < 2 * BUCKET)
  {
    var store := new TrafficStore(0);
    var s := Sample(BUCKET, false, 0, 7);
    assert KeyOf(s) == Key(BUCKET, false, 0);
    OneSample(s);
    assert [] + [s] == [s];
    hide Recorded, ShardOf, KeyOf, ShardHolds, LostBelow;
    store.Add(s, true);
    assert store.lost == {};
    var _ := store.Snapshot(later);
    assert Key(BUCKET, false, 0) in store.lost <==> Expired(BUCKET, later);
    seen := store.Snapshot(BUCKET);
  }

  // ---------------------------------------------------------------- sums

  ghost function SumOver(keys: set<Key>, weight: Key -> int): int {
    if keys == {} then 0
    else
      var k :| k in keys;
      weight(k) + SumOver(keys - {k}, weight)
  }

  lemma {:induction false} SumPick(keys: set<Key>, weight: Key -> int, k: Key)
    requires k in keys
    ensures SumOver(keys, weight) == weight(k) + SumOver(keys - {k}, weight)
    decreases |keys|
  {
    var j :| j in keys && SumOver(keys, weight) == weight(j) + SumOver(keys - {j}, weight);
    if j != k {
      SumPick(keys - {j}, weight, k);
      SumPick(keys - {k}, weight, j);
      assert keys - {j} - {k} == keys - {k} - {j};
    }
  }

  lemma {:induction false} SumAgree(keys: set<Key>, v: Key -> int, w: Key -> int)
    requires forall k :: k in keys ==> v(k) == w(k)
    ensures SumOver(keys, v) == SumOver(keys, w)
    decreases |keys|
  {
    if keys != {} {
      var k :| k in keys;
      SumPick(keys, v, k);
      SumPick(keys, w, k);
      SumAgree(keys - {k}, v, w);
    }
  }

  /** The bytes of one direction. */
  function Bytes(m: map<Key, int>, rx: bool): Key -> int {
    (k: Key) => if k in m && k.rx == rx then m[k] else 0
  }

  ghost function Total(m: map<Key, int>, rx: bool): int {
    SumOver(m.Keys, Bytes(m, rx))
  }

  /** The bytes of the samples of one direction that some condition keeps. */
  function SampleBytes(samples: seq<Sample>, rx: bool, keep: Sample -> bool): int
    decreases |samples|
  {
    if samples == [] then 0
    else
      var s := samples[|samples| - 1];
      SampleBytes(samples[..|samples| - 1], rx, keep) + if s.bytes > 0 && s.rx == rx && keep(s) then s.bytes else 0
  }

  function InWindow(cutoff: int): Sample -> bool {
    (s: Sample) => !Expired(Truncate(s.at), cutoff)
  }

  function Since(from: int): Sample -> bool {
    (s: Sample) => s.at >= from
  }

  function After(from: int): Sample -> bool {
    (s: Sample) => s.at > from
  }

  lemma BumpTotal(m: map<Key, int>, key: Key, bytes: int, rx: bool)
    ensures Total(Bump(m, key, bytes), rx) == Total(m, rx) + if key.rx == rx then bytes else 0
  {
    var m' := Bump(m, key, bytes);
    var rest := m'.Keys - {key};
    SumPick(m'.Keys, Bytes(m', rx), key);
    SumAgree(rest, Bytes(m', rx), Bytes(m, rx));
    if key in m {
      assert m.Keys - {key} == rest;
      SumPick(m.Keys, Bytes(m, rx), key);
    } else {
      assert m.Keys == rest;
    }
  }

  lemma UnexpiredBump(m: map<Key, int>, key: Key, bytes: int, cutoff: int)
    ensures Unexpired(Bump(m, key, bytes), cutoff)
         == if Expired(key.bucket, cutoff) then Unexpired(m, cutoff) else Bump(Unexpired(m, cutoff), key, bytes)
  {
  }

  /** The total of a snapshot is the bytes of all samples whose bucket is not expired. */
  lemma {:induction false} TotalIsSampleBytes(samples: seq<Sample>, cutoff: int, rx: bool)
    ensures Total(Unexpired(Recorded(samples), cutoff), rx) == SampleBytes(samples, rx, InWindow(cutoff))
    decreases |samples|
  {
    if samples == [] {
      assert Unexpired(map[], cutoff) == map[];
    } else {
      var init, s := samples[..|samples| - 1], samples[|samples| - 1];
      TotalIsSampleBytes(init, cutoff, rx);
      if s.bytes > 0 {
        UnexpiredBump(Recorded(init), KeyOf(s), s.bytes, cutoff);
        BumpTotal(Unexpired(Recorded(init), cutoff), KeyOf(s), s.bytes, rx);
      }
    }
  }

  /** Keeping more samples sums up to more. */
  lemma {:induction false} SampleBytesMonotone(samples: seq<Sample>, rx: bool,
      fewer: Sample -> bool, more: Sample -> bool)
    requires forall s :: fewer(s) ==> more(s)
    ensures SampleBytes(samples, rx, fewer) <= SampleBytes(samples, rx, more)
    decreases |samples|
  {
    if samples != [] {
      SampleBytesMonotone(samples[..|samples| - 1], rx, fewer, more);
    }
  }

  /**
   The window total counts every sample at or after the cutoff and none at or before the cutoff
   less one bucket: a snapshot keeps too much by at most one bucket and never too little.
   */
  lemma WindowBrackets(samples: seq<Sample>, cutoff: int, rx: bool)
    ensures SampleBytes(samples, rx, Since(cutoff)) <= Total(Unexpired(Recorded(samples), cutoff), rx)
         <= SampleBytes(samples, rx, After(cutoff - BUCKET))
  {
    TotalIsSampleBytes(samples, cutoff, rx);
    SampleBytesMonotone(samples, rx, Since(cutoff), InWindow(cutoff));
    SampleBytesMonotone(samples, rx, InWindow(cutoff), After(cutoff - BUCKET));
  }

  lemma SumInsert(keys: set<Key>, weight: Key -> int, k: Key)
    requires k !in keys
    ensures SumOver(keys + {k}, weight) == SumOver(keys, weight) + weight(k)
  {
    SumPick(keys + {k}, weight, k);
    assert keys + {k} - {k} == keys;
  }

  method Totals(buckets: map<Key, int>) returns (tx: int, rx: int)
    ensures tx == Total(buckets, false) && rx == Total(buckets, true)
  {
    tx, rx := 0, 0;
    var left := buckets.Keys;
    ghost var done: set<Key> := {};
    while left != {}
      invariant left <= buckets.Keys && done == buckets.Keys - left
      invariant tx == SumOver(done, Bytes(buckets, false)) && rx == SumOver(done, Bytes(buckets, true))
      decreases left
    {
      var key :| key in left;
      SumInsert(done, Bytes(buckets, false), key);
      SumInsert(done, Bytes(buckets, true), key);
      left, done := left - {key}, done + {key};
      hide SumOver;
      if !key.rx {
        tx := tx + buckets[key];
      } else {
        rx := rx + buckets[key];
      }
    }
    assert done == buckets.Keys;
  }

  // ---------------------------------------------------------------- history

  /** A bucket's step, counted from the cutoff; the bucket that straddles the cutoff belongs to the first step. */
  function StepOf(cutoff: int, bucket: nat): nat {
    if bucket < cutoff then 0 else (bucket - cutoff) / STEP
  }

  datatype Point = Point(at: int, tx: int, rx: int)

  /** The bytes of one direction in one step. */
  function StepBytes(m: map<Key, int>, rx: bool, cutoff: int, step: nat): Key -> int {
    (k: Key) => if k in m && k.rx == rx && StepOf(cutoff, k.bucket) == step then m[k] else 0
  }

  ghost predicate PointsSoFar(byStep: map<nat, Point>, m: map<Key, int>, cutoff: int, done: set<Key>) {
    && (forall k :: k in done ==> StepOf(cutoff, k.bucket) in byStep)
    && (forall step: nat :: step in byStep ==> byStep[step].at == cutoff + step * STEP)
    && (forall step: nat ::
      SumOver(done, StepBytes(m, false, cutoff, step)) == if step in byStep then byStep[step].tx else 0)
    && (forall step: nat ::
      SumOver(done, StepBytes(m, true, cutoff, step)) == if step in byStep then byStep[step].rx else 0)
  }

  lemma OneMoreKey(byStep: map<nat, Point>, m: map<Key, int>, cutoff: int, done: set<Key>, key: Key)
    requires PointsSoFar(byStep, m, cutoff, done) && key in m && key !in done
    ensures var step := StepOf(cutoff, key.bucket);
      var p := if step in byStep then byStep[step] else Point(cutoff + step * STEP, 0, 0);
      PointsSoFar(byStep[step := if key.rx then p.(rx := p.rx + m[key]) else p.(tx := p.tx + m[key])], m, cutoff,
        done + {key})
  {
    hide SumOver, StepOf, StepBytes, STEP;
    forall t: nat, rx: bool ensures SumOver(done + {key}, StepBytes(m, rx, cutoff, t))
        == SumOver(done, StepBytes(m, rx, cutoff, t)) +
          if t == StepOf(cutoff, key.bucket) && key.rx == rx then m[key] else 0 {
      StepSumMore(m, cutoff, done, key, t, rx);
    }
  }

  lemma StepSumMore(m: map<Key, int>, cutoff: int, done: set<Key>, key: Key, step: nat, rx: bool)
    requires key in m && key !in done
    ensures SumOver(done + {key}, StepBytes(m, rx, cutoff, step))
         == SumOver(done, StepBytes(m, rx, cutoff, step)) +
           if step == StepOf(cutoff, key.bucket) && key.rx == rx then m[key] else 0
  {
    SumInsert(done, StepBytes(m, rx, cutoff, step), key);
  }

  lemma NoPointsYet(m: map<Key, int>, cutoff: int)
    ensures PointsSoFar(map[], m, cutoff, {})
  {
  }

  function SumPoints(points: seq<Point>, rx: bool): int
    decreases |points|
  {
    if points == [] then 0
    else SumPoints(points[..|points| - 1], rx) + if rx then points[|points| - 1].rx else points[|points| - 1].tx
  }

  /** The sums of all listed steps, added up. */
  ghost function SumSteps(steps: seq<nat>, keys: set<Key>, m: map<Key, int>, rx: bool, cutoff: int): int
    decreases |steps|
  {
    if steps == [] then 0
    else
      var n := |steps| - 1;
      SumSteps(steps[..n], keys, m, rx, cutoff) + SumOver(keys, StepBytes(m, rx, cutoff, steps[n]))
  }

  lemma {:induction false} SumStepsInsert(steps: seq<nat>, keys: set<Key>, m: map<Key, int>, rx: bool, cutoff: int,
      k: Key)
    requires k in keys && k in m && StrictlyAscending(steps)
    ensures SumSteps(steps, keys, m, rx, cutoff)
         == SumSteps(steps, keys - {k}, m, rx, cutoff) +
           if k.rx == rx && StepOf(cutoff, k.bucket) in steps then m[k] else 0
    decreases |steps|
  {
    if steps != [] {
      var n := |steps| - 1;
      SumStepsInsert(steps[..n], keys, m, rx, cutoff, k);
      SumPick(keys, StepBytes(m, rx, cutoff, steps[n]), k);
      LastIsGreatest(steps, steps[n]);
      assert steps == steps[..n] + [steps[n]];
      hide SumOver;
    }
  }

  lemma {:induction false} NoKeysNoSteps(steps: seq<nat>, m: map<Key, int>, rx: bool, cutoff: int)
    ensures SumSteps(steps, {}, m, rx, cutoff) == 0
    decreases |steps|
  {
    if steps != [] {
      NoKeysNoSteps(steps[..|steps| - 1], m, rx, cutoff);
    }
  }

  /** Cutting the keys into steps loses nothing: the steps add up to the total. */
  lemma {:induction false} StepsAddUp(steps: seq<nat>, keys: set<Key>, m: map<Key, int>, rx: bool, cutoff: int)
    requires keys <= m.Keys && StrictlyAscending(steps) && forall k :: k in keys ==> StepOf(cutoff, k.bucket) in steps
    ensures SumSteps(steps, keys, m, rx, cutoff) == SumOver(keys, Bytes(m, rx))
    decreases |keys|
  {
    if keys == {} {
      NoKeysNoSteps(steps, m, rx, cutoff);
    } else {
      var k :| k in keys;
      SumStepsInsert(steps, keys, m, rx, cutoff, k);
      SumPick(keys, Bytes(m, rx), k);
      StepsAddUp(steps, keys - {k}, m, rx, cutoff);
    }
  }

  /**
   The traffic history of a snapshot: one point per step with traffic, in ascending time. The
   points of each direction add up to the snapshot's total.
   */
  method History(m: map<Key, int>, cutoff: int) returns (points: seq<Point>)
    ensures SumPoints(points, false) == Total(m, false) && SumPoints(points, true) == Total(m, true)
    ensures forall i, j | 0 <= i < j < |points| :: points[i].at < points[j].at
    ensures forall p :: p in points ==> p.tx != 0 || p.rx != 0
    ensures forall p :: p in points ==> StandsFor(p, m, cutoff)
    ensures forall k :: k in m ==> Shown(points, m, cutoff, k)
  {
    hide *;
    var byStep := GroupBySteps(m, cutoff);
    var steps := Sort(byStep.Keys);
    AllStepsListed(byStep, m, cutoff, steps);
    StepsAddUp(steps, m.Keys, m, false, cutoff);
    StepsAddUp(steps, m.Keys, m, true, cutoff);
    TotalIsSum(m);
    points := ListPoints(m, cutoff, byStep, steps);
    forall p | p in points ensures StandsFor(p, m, cutoff) {
      var step: nat :| step in byStep && p == byStep[step];
      PointOfStep(byStep, m, cutoff, step);
    }
    forall k | k in m ensures Shown(points, m, cutoff, k) {
      BucketIsShown(byStep, m, cutoff, points, k);
    }
  }

  lemma AllStepsListed(byStep: map<nat, Point>, m: map<Key, int>, cutoff: int, steps: seq<nat>)
    requires PointsSoFar(byStep, m, cutoff, m.Keys) && forall s :: s in steps <==> s in byStep
    ensures forall k :: k in m.Keys ==> StepOf(cutoff, k.bucket) in steps
  {
  }

  lemma TotalIsSum(m: map<Key, int>)
    ensures Total(m, false) == SumOver(m.Keys, Bytes(m, false)) && Total(m, true) == SumOver(m.Keys, Bytes(m, true))
  {
  }

  /**
   A point stands a whole number of 5 s steps behind the cutoff, for the buckets of its own step;
   the first one also has the bucket that straddles the cutoff.
   */
  ghost predicate StandsFor(p: Point, m: map<Key, int>, cutoff: int) {
    && cutoff <= p.at && (p.at - cutoff) % 5_000_000_000 == 0
    && p.tx == SumOver(m.Keys, AtPoint(m, false, cutoff, p.at))
    && p.rx == SumOver(m.Keys, AtPoint(m, true, cutoff, p.at))
  }

  /** The point of the bucket's time is there, unless that point would have no bytes in either direction. */
  ghost predicate Shown(points: seq<Point>, m: map<Key, int>, cutoff: int, k: Key) {
    exists at: int ::
      && (at <= k.bucket < at + 5_000_000_000 || (k.bucket < cutoff && at == cutoff))
      && ((exists p :: p in points && p.at == at)
          || (SumOver(m.Keys, AtPoint(m, false, cutoff, at)) == 0 == SumOver(m.Keys, AtPoint(m, true, cutoff, at))))
  }

  lemma BucketIsShown(byStep: map<nat, Point>, m: map<Key, int>, cutoff: int, points: seq<Point>, k: Key)
    requires PointsSoFar(byStep, m, cutoff, m.Keys) && k in m
    requires forall step: nat ::
      step in byStep && (byStep[step].tx != 0 || byStep[step].rx != 0) ==> byStep[step] in points
    ensures Shown(points, m, cutoff, k)
  {
    var step := StepOf(cutoff, k.bucket);
    StepInTime(cutoff, k.bucket, step);
    StepIsListed(byStep, m, cutoff, k);
    PointOfStep(byStep, m, cutoff, step);
    hide SumOver, StepOf, AtPoint, PointsSoFar;
    var p := byStep[step];
    if p.tx != 0 || p.rx != 0 {
      assert p in points && p.at == cutoff + step * STEP;
    }
  }

  /** The bytes of one direction that belong to the point at a time. */
  function AtPoint(m: map<Key, int>, rx: bool, cutoff: int, at: int): Key -> int {
    (k: Key) =>
      if k in m && k.rx == rx && (at <= k.bucket < at + 5_000_000_000 || (k.bucket < cutoff && at == cutoff)) then m[k]
      else 0
  }

  lemma StepInTime(cutoff: int, bucket: nat, step: nat)
    ensures var at := cutoff + step * STEP;
      StepOf(cutoff, bucket) == step
      <==> at <= bucket < at + 5_000_000_000 || (bucket < cutoff && at == cutoff)
  {
  }

  lemma StepIsListed(byStep: map<nat, Point>, m: map<Key, int>, cutoff: int, k: Key)
    requires PointsSoFar(byStep, m, cutoff, m.Keys) && k in m
    ensures StepOf(cutoff, k.bucket) in byStep
  {
  }

  lemma PointOfStep(byStep: map<nat, Point>, m: map<Key, int>, cutoff: int, step: nat)
    requires PointsSoFar(byStep, m, cutoff, m.Keys) && step in byStep
    ensures byStep[step].at == cutoff + step * STEP && StandsFor(byStep[step], m, cutoff)
  {
    PointBytes(byStep, m, cutoff, step);
    hide SumOver, PointsSoFar;
    var at := cutoff + step * STEP;
    forall k | k in m.Keys
      ensures StepBytes(m, false, cutoff, step)(k) == AtPoint(m, false, cutoff, at)(k)
      ensures StepBytes(m, true, cutoff, step)(k) == AtPoint(m, true, cutoff, at)(k)
    {
      StepInTime(cutoff, k.bucket, step);
    }
    SumAgree(m.Keys, StepBytes(m, false, cutoff, step), AtPoint(m, false, cutoff, at));
    SumAgree(m.Keys, StepBytes(m, true, cutoff, step), AtPoint(m, true, cutoff, at));
  }

  method GroupBySteps(m: map<Key, int>, cutoff: int) returns (byStep: map<nat, Point>)
    ensures PointsSoFar(byStep, m, cutoff, m.Keys)
  {
    hide PointsSoFar, StepOf;
    byStep := map[];
    var left := m.Keys;
    ghost var done: set<Key> := {};
    NoPointsYet(m, cutoff);
    while left != {}
      invariant left <= m.Keys && done == m.Keys - left && PointsSoFar(byStep, m, cutoff, done)
      decreases left
    {
      var key :| key in left;
      OneMoreKey(byStep, m, cutoff, done, key);
      left, done := left - {key}, done + {key};
      var step: nat := StepOf(cutoff, key.bucket);
      var p := if step in byStep then byStep[step] else Point(cutoff + step * STEP, 0, 0);
      byStep := byStep[step := if key.rx then p.(rx := p.rx + m[key]) else p.(tx := p.tx + m[key])];
    }
    assert done == m.Keys;
  }

  /** The points stand at the given steps. */
  ghost predicate Timed(points: seq<Point>, steps: seq<nat>, cutoff: int) {
    |points| == |steps| && forall i | 0 <= i < |points| :: points[i].at == cutoff + steps[i] * STEP
  }

  lemma TimedAscends(points: seq<Point>, steps: seq<nat>, cutoff: int)
    requires Timed(points, steps, cutoff) && StrictlyAscending(steps)
    ensures forall i, j | 0 <= i < j < |points| :: points[i].at < points[j].at
  {
  }

  /** The points stand at some of the first i steps, in order. */
  ghost predicate InOrder(points: seq<Point>, used: seq<nat>, cutoff: int, steps: seq<nat>, i: nat) {
    i <= |steps| && Timed(points, used, cutoff) && StrictlyAscending(used) && forall u :: u in used ==> u in steps[..i]
  }

  lemma InOrderMore(points: seq<Point>, used: seq<nat>, cutoff: int, steps: seq<nat>, i: nat, p: Point)
    requires i < |steps| && StrictlyAscending(steps) && InOrder(points, used, cutoff, steps, i)
    requires p.at == cutoff + steps[i] * STEP
    ensures InOrder(points, used, cutoff, steps, i + 1)
    ensures InOrder(points + [p], used + [steps[i]], cutoff, steps, i + 1)
  {
    TakeMore(steps, i);
    forall j | 0 <= j < |used| ensures used[j] < steps[i] {
      assert used[j] in used;
      var k :| 0 <= k < i && steps[..i][k] == used[j];
    }
  }

  /** The points have the bytes of the first i steps. */
  ghost predicate Summed(points: seq<Point>, m: map<Key, int>, cutoff: int, steps: seq<nat>, i: nat) {
    && i <= |steps|
    && SumPoints(points, false) == SumSteps(steps[..i], m.Keys, m, false, cutoff)
    && SumPoints(points, true) == SumSteps(steps[..i], m.Keys, m, true, cutoff)
  }

  lemma SummedMore(points: seq<Point>, byStep: map<nat, Point>, m: map<Key, int>, cutoff: int, steps: seq<nat>, i: nat)
    requires PointsSoFar(byStep, m, cutoff, m.Keys) && i < |steps| && steps[i] in byStep
    requires Summed(points, m, cutoff, steps, i)
    ensures var p := byStep[steps[i]];
      Summed(if p.tx != 0 || p.rx != 0 then points + [p] else points, m, cutoff, steps, i + 1)
  {
    PointBytes(byStep, m, cutoff, steps[i]);
    hide SumPoints, SumSteps, SumOver, StepBytes, PointsSoFar;
    PointsSnoc(points, byStep[steps[i]], false);
    PointsSnoc(points, byStep[steps[i]], true);
    StepsSnoc(steps, i, m, false, cutoff);
    StepsSnoc(steps, i, m, true, cutoff);
  }

  lemma PointBytes(byStep: map<nat, Point>, m: map<Key, int>, cutoff: int, step: nat)
    requires PointsSoFar(byStep, m, cutoff, m.Keys) && step in byStep
    ensures byStep[step].at == cutoff + step * STEP
    ensures byStep[step].tx == SumOver(m.Keys, StepBytes(m, false, cutoff, step))
    ensures byStep[step].rx == SumOver(m.Keys, StepBytes(m, true, cutoff, step))
  {
  }

  lemma StepsSnoc(steps: seq<nat>, i: nat, m: map<Key, int>, rx: bool, cutoff: int)
    requires i < |steps|
    ensures SumSteps(steps[..i + 1], m.Keys, m, rx, cutoff)
         == SumSteps(steps[..i], m.Keys, m, rx, cutoff) + SumOver(m.Keys, StepBytes(m, rx, cutoff, steps[i]))
  {
    assert steps[..i + 1][..i] == steps[..i];
  }

  lemma PointsSnoc(points: seq<Point>, p: Point, rx: bool)
    ensures SumPoints(points + [p], rx) == SumPoints(points, rx) + if rx then p.rx else p.tx
  {
    assert (points + [p])[..|points|] == points;
  }

  lemma NoStepYet(byStep: map<nat, Point>, m: map<Key, int>, cutoff: int, steps: seq<nat>)
    ensures Summed([], m, cutoff, steps, 0) && InOrder([], [], cutoff, steps, 0) && ListedFrom([], byStep, steps[..0])
  {
  }

  method ListPoints(m: map<Key, int>, cutoff: int, byStep: map<nat, Point>,
      steps: seq<nat>) returns (points: seq<Point>)
    requires PointsSoFar(byStep, m, cutoff, m.Keys) && StrictlyAscending(steps) && forall s ::
      s in steps <==> s in byStep
    ensures SumPoints(points, false) == SumSteps(steps, m.Keys, m, false, cutoff)
    ensures SumPoints(points, true) == SumSteps(steps, m.Keys, m, true, cutoff)
    ensures forall i, j | 0 <= i < j < |points| :: points[i].at < points[j].at
    ensures forall p :: p in points ==> p.tx != 0 || p.rx != 0
    ensures forall p :: p in points ==> exists step: nat :: step in byStep && p == byStep[step]
    ensures forall step: nat ::
      step in byStep && (byStep[step].tx != 0 || byStep[step].rx != 0) ==> byStep[step] in points
  {
    hide *;
    points := [];
    ghost var used: seq<nat> := [];
    NoStepYet(byStep, m, cutoff, steps);
    for i: nat := 0 to |steps|
      invariant Summed(points, m, cutoff, steps, i) && InOrder(points, used, cutoff, steps, i)
      invariant ListedFrom(points, byStep, steps[..i])
    {
      var point := byStep[steps[i]];
      ListedMore(points, byStep, steps, i);
      SummedMore(points, byStep, m, cutoff, steps, i);
      PointBytes(byStep, m, cutoff, steps[i]);
      InOrderMore(points, used, cutoff, steps, i, point);
      if point.tx != 0 || point.rx != 0 {
        points, used := points + [point], used + [steps[i]];
      }
    }
    AllListed(points, used, byStep, m, cutoff, steps);
  }

  /** The points are those of the listed steps that have traffic. */
  ghost predicate ListedFrom(points: seq<Point>, byStep: map<nat, Point>, steps: seq<nat>) {
    forall p :: p in points <==> exists step: nat ::
      step in steps && step in byStep && p == byStep[step] && (p.tx != 0 || p.rx != 0)
  }

  lemma ListedMore(points: seq<Point>, byStep: map<nat, Point>, steps: seq<nat>, i: nat)
    requires i < |steps| && steps[i] in byStep && ListedFrom(points, byStep, steps[..i])
    ensures var p := byStep[steps[i]];
      ListedFrom(if p.tx != 0 || p.rx != 0 then points + [p] else points, byStep, steps[..i + 1])
  {
    TakeMore(steps, i);
    var point := byStep[steps[i]];
    var after := if point.tx != 0 || point.rx != 0 then points + [point] else points;
    forall p ensures p in after <==> exists step: nat ::
      step in steps[..i + 1] && step in byStep && p == byStep[step] && (p.tx != 0 || p.rx != 0)
    {
      if p in points {
        var step: nat :| step in steps[..i] && step in byStep && p == byStep[step] && (p.tx != 0 || p.rx != 0);
        assert step in steps[..i + 1];
      }
      if p == point && (p.tx != 0 || p.rx != 0) {
        assert steps[i] in steps[..i + 1];
      }
    }
  }

  lemma AllListed(points: seq<Point>, used: seq<nat>, byStep: map<nat, Point>, m: map<Key, int>, cutoff: int,
      steps: seq<nat>)
    requires Summed(points, m, cutoff, steps, |steps|) && InOrder(points, used, cutoff, steps, |steps|)
    requires ListedFrom(points, byStep, steps[..|steps|]) && forall s :: s in steps <==> s in byStep
    ensures SumPoints(points, false) == SumSteps(steps, m.Keys, m, false, cutoff)
    ensures SumPoints(points, true) == SumSteps(steps, m.Keys, m, true, cutoff)
    ensures forall i, j | 0 <= i < j < |points| :: points[i].at < points[j].at
    ensures forall p :: p in points ==> p.tx != 0 || p.rx != 0
    ensures forall p :: p in points ==> exists step: nat :: step in byStep && p == byStep[step]
    ensures forall step: nat ::
      step in byStep && (byStep[step].tx != 0 || byStep[step].rx != 0) ==> byStep[step] in points
  {
    assert steps[..|steps|] == steps;
    TimedAscends(points, used, cutoff);
    hide SumPoints, SumSteps, Timed;
  }
}
