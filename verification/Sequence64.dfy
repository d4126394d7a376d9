/**
 Message sequences are unsigned 64-bit values. The sequence helpers saturate at the top of
 the range instead of wrapping, so that "the next sequence" never becomes 0.
 */
module Sequence64 {

  const MAX_SEQ: nat := 0xFFFF_FFFF_FFFF_FFFF

  type Seq64 = x: nat | x <= MAX_SEQ

  /** The saturating successor used by the replayer, the manager and the runtime. */
  function Next(s: Seq64): (n: Seq64)
    ensures s < n || s == n == MAX_SEQ
  {
    if s == MAX_SEQ then s else s + 1
  }

  /** Plain machine addition of one: this one does wrap. */
  function WrappingSucc(s: Seq64): Seq64 {
    (s + 1) % (MAX_SEQ + 1)
  }

  /** Distance from the cursor to the committed frontier, never negative. */
  function Lag(cursor: Seq64, committed: Seq64): (lag: Seq64)
    ensures cursor <= committed ==> cursor + lag == committed
    ensures lag == 0 <==> committed <= cursor
  {
    if committed <= cursor then 0 else committed - cursor
  }

  /** A reported floor of 0 means that nothing was retained away. */
  function NormalizeMinAvailable(s: Seq64): Seq64 {
    if s == 0 then 1 else s
  }

  /** First readable sequence above both the retention boundary and the log start. */
  function EffectiveMinAvailable(retentionThrough: Seq64, logStart: Seq64): Seq64 {
    var a := if Next(retentionThrough) > 1 then Next(retentionThrough) else 1;
    if Next(logStart) > a then Next(logStart) else a
  }

  function Min(a: Seq64, b: Seq64): Seq64 {
    if a <= b then a else b
  }

  function Max(a: Seq64, b: Seq64): Seq64 {
    if a >= b then a else b
  }
}
