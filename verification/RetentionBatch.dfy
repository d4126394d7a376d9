/** The round-robin batches of channel retention (internal/app/channelretention.go:36-79). */
module RetentionBatch {
  import opened Division
  import opened Options

  // ---------------------------------------------------------------- rotation

  /** The position after p in a list of n keys, starting again at the first one. */
  function After(n: nat, p: nat): (r: nat)
    requires p < n
    ensures r < n
  {
    if p + 1 == n then 0 else p + 1
  }

  /** The position reached from p after m steps. */
  function At(n: nat, p: nat, m: nat): (r: nat)
    requires p < n
    ensures r < n
  {
    if m == 0 then p else After(n, At(n, p, m - 1))
  }

  /** The m positions that start at p. */
  function Rotation(n: nat, p: nat, m: nat): (r: seq<nat>)
    requires p < n
    ensures |r| == m && forall i | 0 <= i < m :: r[i] < n
  {
    if m == 0 then [] else Rotation(n, p, m - 1) + [At(n, p, m - 1)]
  }

  lemma {:induction false} AtSum(n: nat, p: nat, a: nat, b: nat)
    requires p < n
    ensures At(n, p, a + b) == At(n, At(n, p, a), b)
    decreases b
  {
    if b > 0 {
      AtSum(n, p, a, b - 1);
    }
  }

  lemma {:induction false} RotationSum(n: nat, p: nat, a: nat, b: nat)
    requires p < n
    ensures Rotation(n, p, a + b) == Rotation(n, p, a) + Rotation(n, At(n, p, a), b)
    decreases b
  {
    if b > 0 {
      RotationSum(n, p, a, b - 1);
      AtSum(n, p, a, b - 1);
    }
  }

  /** Within one round, a position wraps at most once. */
  lemma {:induction false} WrapsOnce(n: nat, p: nat, m: nat)
    requires p < n && m <= n
    ensures At(n, p, m) == if p + m < n then p + m else p + m - n
    decreases m
  {
    if m > 0 {
      WrapsOnce(n, p, m - 1);
    }
  }

  /** Wrapping by remainder and wrapping step by step agree. */
  lemma WrapsByRemainder(n: nat, p: nat, m: nat)
    requires p < n && m <= n
    ensures (p + m) % n == At(n, p, m)
  {
    WrapsOnce(n, p, m);
    if p + m < n {
      QuotientAndRemainder(p + m, n, 0, p + m);
    } else {
      QuotientAndRemainder(p + m, n, 1, p + m - n);
    }
  }

  lemma {:induction false} RotationIndex(n: nat, p: nat, m: nat, i: nat)
    requires p < n && i < m <= n
    ensures Rotation(n, p, m)[i] == (p + i) % n
    decreases m
  {
    if i == m - 1 {
      WrapsByRemainder(n, p, i);
    } else {
      RotationIndex(n, p, m - 1, i);
    }
  }

  // ---------------------------------------------------------------- counting

  function Count(positions: seq<nat>, j: nat): nat
    decreases |positions|
  {
    if positions == [] then 0
    else Count(positions[..|positions| - 1], j) + if positions[|positions| - 1] == j then 1 else 0
  }

  lemma {:induction false} CountConcat(a: seq<nat>, b: seq<nat>, j: nat)
    ensures Count(a + b, j) == Count(a, j) + Count(b, j)
    decreases |b|
  {
    if b == [] {
      assert a + b == a;
    } else {
      assert (a + b)[..|a + b| - 1] == a + b[..|b| - 1];
      CountConcat(a, b[..|b| - 1], j);
    }
  }

  /** How many steps lead from p to j. */
  function Distance(n: nat, p: nat, j: nat): nat
    requires p < n && j < n
  {
    if j >= p then j - p else j - p + n
  }

  /** In less than one round, a position is listed once if it is near enough and otherwise not at all. */
  lemma {:induction false} CountPartRound(n: nat, p: nat, m: nat, j: nat)
    requires p < n && j < n && m <= n
    ensures Count(Rotation(n, p, m), j) == if Distance(n, p, j) < m then 1 else 0
    decreases m
  {
    hide *;
    if m == 0 {
      NoStep(n, p, j);
    } else {
      LastStep(n, p, m);
      CountPartRound(n, p, m - 1, j);
      CountSnoc(Rotation(n, p, m - 1), At(n, p, m - 1), j);
      ReachedAtDistance(n, p, m - 1, j);
    }
  }

  lemma NoStep(n: nat, p: nat, j: nat)
    requires p < n && j < n
    ensures Count(Rotation(n, p, 0), j) == 0 && Distance(n, p, j) >= 0
  {
  }

  lemma LastStep(n: nat, p: nat, m: nat)
    requires p < n && 0 < m
    ensures Rotation(n, p, m) == Rotation(n, p, m - 1) + [At(n, p, m - 1)]
  {
  }

  lemma ReachedAtDistance(n: nat, p: nat, m: nat, j: nat)
    requires p < n && j < n && m < n
    ensures At(n, p, m) == j <==> Distance(n, p, j) == m
  {
    WrapsOnce(n, p, m);
  }

  lemma CountSnoc(positions: seq<nat>, x: nat, j: nat)
    ensures Count(positions + [x], j) == Count(positions, j) + if x == j then 1 else 0
  {
    assert (positions + [x])[..|positions|] == positions;
  }

  /** In any number of steps, every position is listed once per full round, and the nearest ones once more. */
  lemma {:induction false} CountRounds(n: nat, p: nat, m: nat, j: nat)
    requires p < n && j < n
    ensures Count(Rotation(n, p, m), j) == m / n + if Distance(n, p, j) < m % n then 1 else 0
    decreases m
  {
    hide *;
    NearerThanARound(n, p, j);
    if m < n {
      CountPartRound(n, p, m, j);
      QuotientAndRemainder(m, n, 0, m);
    } else {
      CountPartRound(n, p, n, j);
      WrapsOnce(n, p, n);
      RotationSum(n, p, n, m - n);
      assert n + (m - n) == m;
      CountConcat(Rotation(n, p, n), Rotation(n, p, m - n), j);
      CountRounds(n, p, m - n, j);
      OneRoundLess(m, n);
    }
  }

  lemma NearerThanARound(n: nat, p: nat, j: nat)
    requires p < n && j < n
    ensures Distance(n, p, j) < n
  {
  }

  lemma OneRoundLess(m: nat, n: nat)
    requires 0 < n <= m
    ensures m / n == (m - n) / n + 1 && m % n == (m - n) % n
  {
    var q, r := (m - n) / n, (m - n) % n;
    assert (q + 1) * n == q * n + n;
    QuotientAndRemainder(m, n, q + 1, r);
  }

  // ---------------------------------------------------------------- batches

  function Limit(n: nat, batchSize: int): (limit: nat)
    ensures limit <= n && (n > 0 ==> limit > 0)
  {
    if 0 < batchSize < n then batchSize else n
  }

  /** Where a batch starts: at the remembered position, unless the list became shorter than that. */
  function Start(n: nat, next: nat): (start: nat)
    requires n > 0
    ensures start < n
  {
    if next >= n then 0 else next
  }

  /** The positions listed by k batches in a row over n keys. */
  function Batches(n: nat, batchSize: int, next: nat, k: nat): seq<nat>
    requires n > 0
    decreases k
  {
    if k == 0 then []
    else
      Rotation(n, Start(n, next), Limit(n, batchSize))
      + Batches(n, batchSize, At(n, Start(n, next), Limit(n, batchSize)), k - 1)
  }

  /** Batches continue where the one before ended: together they are one long rotation. */
  lemma {:induction false} BatchesAreOneRotation(n: nat, batchSize: int, next: nat, k: nat)
    requires n > 0
    ensures Batches(n, batchSize, next, k) == Rotation(n, Start(n, next), k * Limit(n, batchSize))
    decreases k
  {
    var limit, start := Limit(n, batchSize), Start(n, next);
    if k > 0 {
      BatchesAreOneRotation(n, batchSize, At(n, start, limit), k - 1);
      assert k * limit == limit + (k - 1) * limit;
      RotationSum(n, start, limit, (k - 1) * limit);
    }
  }

  /**
   Fairness: for a fixed number of keys, after k batches of size b from any position, every key
   has been listed floor(kb/n) times, and once more exactly when it lies within the last,
   incomplete round.
   */
  lemma EveryKeyIsListedFairly(n: nat, batchSize: int, next: nat, k: nat, j: nat)
    requires j < n
    ensures var total := k * Limit(n, batchSize);
      Count(Batches(n, batchSize, next, k), j) == total / n +
        if Distance(n, Start(n, next), j) < total % n then 1 else 0
  {
    BatchesAreOneRotation(n, batchSize, next, k);
    CountRounds(n, Start(n, next), k * Limit(n, batchSize), j);
  }

  /** No key repeats within a batch. */
  lemma NoRepeatWithinABatch(n: nat, batchSize: int, next: nat, i: nat, j: nat)
    requires n > 0 && i < j < Limit(n, batchSize)
    ensures var batch := Rotation(n, Start(n, next), Limit(n, batchSize)); batch[i] != batch[j]
  {
    var start, limit := Start(n, next), Limit(n, batchSize);
    RotationIndex(n, start, limit, i);
    RotationIndex(n, start, limit, j);
    WrapsByRemainder(n, start, i);
    WrapsByRemainder(n, start, j);
    WrapsOnce(n, start, i);
    WrapsOnce(n, start, j);
  }

  // ---------------------------------------------------------------- the lister

  type Key = string
  type ChannelId = string

  datatype ListError = ContextDone | InvalidConfig | KeysFailed | BadKey

  datatype Channel = Channel(key: Key, id: ChannelId)

  /** What one call meets: whether the context has ended at its k-th check, the keys, and how keys parse. */
  datatype Call = Call(ended: nat -> bool, keys: Option<seq<Key>>, parse: Key -> Option<ChannelId>)

  /** The channels at the given positions. */
  ghost predicate ListsPositions(call: Call, positions: seq<nat>, channels: seq<Channel>)
    requires call.keys.Some?
  {
    |channels| == |positions| && forall i | 0 <= i < |positions| ::
      positions[i] < |call.keys.value| && call.parse(call.keys.value[positions[i]]) == Some(channels[i].id)
      && channels[i].key == call.keys.value[positions[i]]
  }

  lemma ListsOneMore(call: Call, positions: seq<nat>, channels: seq<Channel>, position: nat, channel: Channel)
    requires call.keys.Some? && ListsPositions(call, positions, channels) && position < |call.keys.value|
    requires channel.key == call.keys.value[position] && call.parse(channel.key) == Some(channel.id)
    ensures ListsPositions(call, positions + [position], channels + [channel])
  {
  }

  /** The i-th key of the batch parses, and the context has not ended before it. */
  ghost predicate Listable(call: Call, batch: seq<nat>, i: nat)
    requires call.keys.Some? && i < |batch|
  {
    !call.ended(i + 1) && batch[i] < |call.keys.value| && call.parse(call.keys.value[batch[i]]).Some?
  }

  class RetentionChannels {
    const configured: bool
    const batchSize: int
    var next: nat

    constructor (configured: bool, batchSize: int)
      ensures this.configured == configured && this.batchSize == batchSize && next == 0
    {
      this.configured, this.batchSize, next := configured, batchSize, 0;
    }

    method NextBatch(total: nat) returns (start: nat, limit: nat)
      requires total > 0
      modifies this
      ensures start == Start(total, old(next)) && limit == Limit(total, batchSize)
      ensures start == (if old(next) < total then old(next) else 0)
      ensures limit == (if 0 < batchSize <= total then batchSize else total)
      ensures next == At(total, start, limit)
      ensures next == if start + limit < total then start + limit else start + limit - total
    {
      limit := total;
      if batchSize > 0 && batchSize < limit {
        limit := batchSize;
      }
      if next >= total {
        next := 0;
      }
      start := next;
      WrapsByRemainder(total, start, limit);
      WrapsOnce(total, start, limit);
      hide At;
      next := (next + limit) % total;
    }

    /**
     Lists the next batch. Once the keys are known, the position moves on by a whole batch even
     when the call then fails, so that the keys of a failed batch wait for the next round.
     */
    method ListRetentionChannels(call: Call) returns (r: Result<seq<Channel>, ListError>)
      modifies this
      ensures var reached := !call.ended(0) && configured && call.keys.Some? && call.keys.value != [];
        && (!reached ==> next == old(next) && (r.Ok? ==> r.value == []))
        && (reached ==>
              var n := |call.keys.value|; var start, limit := Start(n, old(next)), Limit(n, batchSize);
              && next == At(n, start, limit)
              && (r.Ok? ==> ListsPositions(call, Rotation(n, start, limit), r.value))
              && (r.Ok? <==> forall i: nat | i < limit :: Listable(call, Rotation(n, start, limit), i)))
    {
      if call.ended(0) {
        return Err(ContextDone);
      }
      if !configured {
        return Err(InvalidConfig);
      }
      if call.keys.None? {
        return Err(KeysFailed);
      }
      var keys := call.keys.value;
      if keys == [] {
        return Ok([]);
      }
      var start, limit := NextBatch(|keys|);
      r := ListBatch(call, start, limit);
    }

    /** The channels of the batch's keys, unless the context ends or a key does not parse. */
    method ListBatch(call: Call, start: nat, limit: nat) returns (r: Result<seq<Channel>, ListError>)
      requires call.keys.Some? && start < |call.keys.value| && limit <= |call.keys.value|
      ensures var batch := Rotation(|call.keys.value|, start, limit);
        && (r.Ok? ==> ListsPositions(call, batch, r.value))
        && (r.Ok? <==> forall i: nat | i < limit :: Listable(call, batch, i))
    {
      var keys := call.keys.value;
      var channels: seq<Channel> := [];
      ghost var batch := Rotation(|keys|, start, limit);
      hide Rotation, At;
      for i: nat := 0 to limit
        invariant ListsPositions(call, batch[..i], channels)
        invariant forall j: nat | j < i :: Listable(call, batch, j)
      {
        RotationIndex(|keys|, start, limit, i);
        if call.ended(i + 1) {
          assert !Listable(call, batch, i);
          return Err(ContextDone);
        }
        var key := keys[(start + i) % |keys|];
        var id := call.parse(key);
        if id.None? {
          assert !Listable(call, batch, i);
          return Err(BadKey);
        }
        assert Listable(call, batch, i) && batch[..i + 1] == batch[..i] + [batch[i]];
        ListsOneMore(call, batch[..i], channels, batch[i], Channel(key, id.value));
        channels := channels + [Channel(key, id.value)];
      }
      assert batch[..limit] == batch;
      return Ok(channels);
    }

    /** k batches in a row that all succeed list exactly the positions of k batches. */
    method ListBatches(call: Call, k: nat) returns (channels: seq<Channel>)
      requires configured && call.keys.Some? && call.keys.value != []
      requires (forall i :: !call.ended(i)) && forall key :: call.parse(key).Some?
      modifies this
      ensures ListsPositions(call, Batches(|call.keys.value|, batchSize, old(next), k), channels)
    {
      channels := [];
      ghost var n := |call.keys.value|;
      ghost var positions := [];
      hide Rotation, At, Limit, Start;
      for i: nat := 0 to k
        invariant ListsPositions(call, positions, channels)
        invariant positions + Batches(n, batchSize, next, k - i) == Batches(n, batchSize, old(next), k)
      {
        ghost var batch := Rotation(n, Start(n, next), Limit(n, batchSize));
        ghost var rest := Batches(n, batchSize, At(n, Start(n, next), Limit(n, batchSize)), k - i - 1);
        assert positions + (batch + rest) == (positions + batch) + rest;
        var r := ListRetentionChannels(call);
        positions, channels := positions + batch, channels + r.value;
      }
      assert positions + [] == positions;
    }
  }
}
