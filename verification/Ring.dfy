/** A ratio over a sliding window: a fixed ring of time slices against the log of everything recorded. */
module Ring {
  import opened Polling

  const U64_MAX: nat := 0xFFFF_FFFF_FFFF_FFFF

  type U64 = n: nat | n <= U64_MAX

  /** What a counter that cannot exceed its width shows of a total. */
  function Saturated(total: nat): U64 {
    if total <= U64_MAX then total else U64_MAX
  }

  function Max(a: nat, b: nat): nat {
    if a < b then b else a
  }

  function Min(a: nat, b: nat): nat {
    if a < b then a else b
  }

  datatype Kind = Expected | Observed

  datatype Bucket = Bucket(stamp: nat, expected: U64, observed: U64)

  function Count(b: Bucket, kind: Kind): U64 {
    if kind.Expected? then b.expected else b.observed
  }

  /** One call of `record_expected` or `record_observed`. */
  datatype Record = Record(kind: Kind, slice: nat, count: U64)

  // The log.

  /** The newest slice recorded among those that share slot `i` of `k`, or zero. */
  function Newest(log: seq<Record>, i: nat, k: nat): nat
    requires k > 0
  {
    if log == [] then 0
    else
      var before, last := Newest(log[..|log| - 1], i, k), log[|log| - 1];
      if last.slice % k == i && last.slice > before then last.slice else before
  }

  function Newests(log: seq<Record>, k: nat): (stamps: seq<nat>)
    requires k > 0
    ensures |stamps| == k && forall i :: 0 <= i < k ==> stamps[i] == Newest(log, i, k)
  {
    seq(k, i requires 0 <= i < k => Newest(log, i, k))
  }

  /** Everything of one kind recorded for `slice`, if that slice belongs to slot `i`. */
  function SliceTotal(log: seq<Record>, kind: Kind, slice: nat, i: nat, k: nat): nat
    requires k > 0
  {
    if log == [] then 0
    else
      var last := log[|log| - 1];
      SliceTotal(log[..|log| - 1], kind, slice, i, k)
      + if last.kind == kind && last.slice == slice && slice % k == i then last.count else 0
  }

  /** The slice is one of the last `n` up to the current one. */
  predicate Recent(slice: nat, n: nat, current: nat) {
    slice <= current < slice + n
  }

  /** Everything of one kind recorded for the last `n` slices. */
  function WindowTotal(log: seq<Record>, kind: Kind, n: nat, current: nat): nat {
    if log == [] then 0
    else
      var last := log[|log| - 1];
      WindowTotal(log[..|log| - 1], kind, n, current)
      + if last.kind == kind && Recent(last.slice, n, current) then last.count else 0
  }

  /** The same, but only from slices that are the newest of their slot; of the first `m` slots. */
  function LiveTotal(log: seq<Record>, stamps: seq<nat>, m: nat, kind: Kind, n: nat, current: nat): nat
    requires m <= |stamps| && stamps != []
  {
    if log == [] then 0
    else
      var last := log[|log| - 1];
      var slot := last.slice % |stamps|;
      LiveTotal(log[..|log| - 1], stamps, m, kind, n, current)
      + if last.kind == kind && Recent(last.slice, n, current) && slot < m && last.slice == stamps[slot] then last.count
        else 0
  }

  lemma {:induction false} NewestBounds(log: seq<Record>, i: nat, k: nat)
    requires k > 0
    ensures forall r :: r in log && r.slice % k == i ==> r.slice <= Newest(log, i, k)
    ensures Newest(log, i, k) == 0 || exists r :: r in log && r.slice % k == i && r.slice == Newest(log, i, k)
  {
    if log != [] {
      var before, last := log[..|log| - 1], log[|log| - 1];
      NewestBounds(before, i, k);
      assert log == before + [last];
    }
  }

  /** A slice nobody has recorded for has no total. */
  lemma {:induction false} NothingNewer(log: seq<Record>, kind: Kind, slice: nat, i: nat, k: nat)
    requires k > 0 && slice > Newest(log, i, k)
    ensures SliceTotal(log, kind, slice, i, k) == 0
  {
    if log != [] {
      NothingNewer(log[..|log| - 1], kind, slice, i, k);
    }
  }

  /** Counting slot by slot and counting record by record agree. */
  lemma {:induction false} OneMoreSlot(log: seq<Record>, stamps: seq<nat>, m: nat, kind: Kind, n: nat, current: nat)
    requires m < |stamps|
    ensures LiveTotal(log, stamps, m + 1, kind, n, current) ==
            LiveTotal(log, stamps, m, kind, n, current)
            + if Recent(stamps[m], n, current) then SliceTotal(log, kind, stamps[m], m, |stamps|) else 0
  {
    if log != [] {
      OneMoreSlot(log[..|log| - 1], stamps, m, kind, n, current);
    }
  }

  /** When nothing newer than the current slice was recorded, a window no wider than the ring is live as a whole. */
  lemma {:induction false} WholeWindowLive(log: seq<Record>, whole: seq<Record>, k: nat, kind: Kind, n: nat, current: nat)
    requires 0 < n <= k
    requires forall r :: r in log ==> r in whole
    requires forall r :: r in whole ==> r.slice <= current
    ensures LiveTotal(log, Newests(whole, k), k, kind, n, current) == WindowTotal(log, kind, n, current)
  {
    if log != [] {
      var before, last := log[..|log| - 1], log[|log| - 1];
      assert log == before + [last];
      WholeWindowLive(before, whole, k, kind, n, current);
      if Recent(last.slice, n, current) {
        var slot := last.slice % k;
        NewestBounds(whole, slot, k);
        SameSlot(last.slice, Newest(whole, slot, k), k, current);
      }
    }
  }

  /** A record whose slot was reused for a later slice. */
  ghost predicate Overtaken(r: Record, log: seq<Record>, k: nat)
    requires k > 0
  {
    exists later :: later in log && later.slice % k == r.slice % k && later.slice > r.slice
  }

  lemma OvertakenIffNotNewest(r: Record, log: seq<Record>, k: nat)
    requires k > 0 && r in log
    ensures Overtaken(r, log, k) <==> r.slice != Newest(log, r.slice % k, k)
  {
    NewestBounds(log, r.slice % k, k);
    if r.slice < Newest(log, r.slice % k, k) {
      var later :| later in log && later.slice % k == r.slice % k && later.slice == Newest(log, r.slice % k, k);
      assert Overtaken(r, log, k);
    }
  }

  /** No record that counts for the window was overtaken. */
  ghost predicate NoneOvertaken(log: seq<Record>, whole: seq<Record>, k: nat, kind: Kind, n: nat, current: nat)
    requires k > 0
  {
    forall r :: r in log && r.kind == kind && Recent(r.slice, n, current) && r.count > 0 ==> !Overtaken(r, whole, k)
  }

  /** The ring never counts too much, and it loses something of a window exactly if a record of it was overtaken. */
  lemma {:induction false} NothingLostIff(log: seq<Record>, whole: seq<Record>, k: nat, kind: Kind, n: nat, current: nat)
    requires k > 0
    requires forall r :: r in log ==> r in whole
    ensures LiveTotal(log, Newests(whole, k), k, kind, n, current) <= WindowTotal(log, kind, n, current)
    ensures LiveTotal(log, Newests(whole, k), k, kind, n, current) == WindowTotal(log, kind, n, current) <==>
            NoneOvertaken(log, whole, k, kind, n, current)
  {
    if log != [] {
      var before, last := log[..|log| - 1], log[|log| - 1];
      assert log == before + [last];
      NothingLostIff(before, whole, k, kind, n, current);
      OvertakenIffNotNewest(last, whole, k);
    }
  }

  /** Two slices of one slot that lie in a window no wider than the ring are the same. */
  lemma SameSlot(a: nat, b: nat, k: nat, current: nat)
    requires k > 0 && a <= b <= current < a + k
    requires b == 0 || b % k == a % k
    ensures a == b
  {
    assert a == k * (a / k) + a % k && b == k * (b / k) + b % k;
    if a / k < b / k {
      MulGap(k, a / k, b / k);
    }
  }

  lemma MulGap(k: nat, x: nat, y: nat)
    requires x < y
    ensures k * y >= k * x + k
    decreases y
  {
    if x + 1 < y {
      MulGap(k, x, y - 1);
    }
  }

  // The fold over the ring.

  /** The saturating sum of the counts of all buckets stamped within `lo..=hi`. */
  function Fold(buckets: seq<Bucket>, kind: Kind, lo: nat, hi: nat): U64 {
    if buckets == [] then 0
    else
      var last := buckets[|buckets| - 1];
      var before := Fold(buckets[..|buckets| - 1], kind, lo, hi);
      if lo <= last.stamp <= hi then Saturated(before + Count(last, kind)) else before
  }

  /** Bucket `i` shows the newest slice of its slot and what was recorded for it. */
  ghost predicate Shows(b: Bucket, log: seq<Record>, i: nat, k: nat)
    requires k > 0
  {
    && b.stamp == Newest(log, i, k)
    && (forall kind :: Count(b, kind) == Saturated(SliceTotal(log, kind, b.stamp, i, k)))
  }

  lemma {:induction false} FoldIsLiveTotal(buckets: seq<Bucket>, m: nat, log: seq<Record>, kind: Kind, lo: nat, n: nat,
      current: nat)
    requires m <= |buckets| && buckets != []
    requires n > 0 && lo == if current < n - 1 then 0 else current - (n - 1)
    requires forall i :: 0 <= i < m ==> Shows(buckets[i], log, i, |buckets|)
    ensures Fold(buckets[..m], kind, lo, current) ==
            Saturated(LiveTotal(log, Newests(log, |buckets|), m, kind, n, current))
  {
    var k := |buckets|;
    if m == 0 {
      NoSlots(log, Newests(log, k), kind, n, current);
    } else {
      FoldIsLiveTotal(buckets, m - 1, log, kind, lo, n, current);
      OneMoreSlot(log, Newests(log, k), m - 1, kind, n, current);
      assert buckets[..m][..m - 1] == buckets[..m - 1];
      assert Shows(buckets[m - 1], log, m - 1, k);
      assert Count(buckets[m - 1], kind) == Saturated(SliceTotal(log, kind, buckets[m - 1].stamp, m - 1, k));
    }
  }

  lemma {:induction false} NoSlots(log: seq<Record>, stamps: seq<nat>, kind: Kind, n: nat, current: nat)
    requires |stamps| > 0
    ensures LiveTotal(log, stamps, 0, kind, n, current) == 0
  {
    if log != [] {
      NoSlots(log[..|log| - 1], stamps, kind, n, current);
    }
  }

  /** What one more record does to what a bucket has to show. */
  lemma ShowsAfter(b: Bucket, log: seq<Record>, r: Record, i: nat, k: nat)
    requires k > 0 && Shows(b, log, i, k)
    ensures r.slice % k != i || r.slice < b.stamp ==> Shows(b, log + [r], i, k)
    ensures r.slice % k == i && r.slice >= b.stamp ==>
              var base := if r.slice == b.stamp then b else Bucket(r.slice, 0, 0);
              var sum := Saturated(Count(base, r.kind) + r.count);
              Shows(if r.kind.Expected? then base.(expected := sum) else base.(observed := sum), log + [r], i, k)
  {
    var longer := log + [r];
    assert longer[..|longer| - 1] == log;
    if r.slice % k != i || r.slice < b.stamp {
      forall kind ensures Count(b, kind) == Saturated(SliceTotal(longer, kind, b.stamp, i, k)) {
        assert Count(b, kind) == Saturated(SliceTotal(log, kind, b.stamp, i, k));
      }
    } else {
      var base := if r.slice == b.stamp then b else Bucket(r.slice, 0, 0);
      var sum := Saturated(Count(base, r.kind) + r.count);
      var b' := if r.kind.Expected? then base.(expected := sum) else base.(observed := sum);
      forall kind ensures Count(b', kind) == Saturated(SliceTotal(longer, kind, b'.stamp, i, k)) {
        assert Count(b, kind) == Saturated(SliceTotal(log, kind, b.stamp, i, k));
        if r.slice > b.stamp {
          NothingNewer(log, kind, r.slice, i, k);
        }
      }
      assert Shows(b', longer, i, k);
    }
  }

  const NANOS_PER_MILLI: nat := 1_000_000

  class WindowedRatio {
    const buckets: array<Bucket>
    const bucketWidth: nat
    const epoch: nat
    /** Everything ever recorded, in the order of the calls. */
    ghost var log: seq<Record>

    /** Every bucket agrees with the log. */
    ghost predicate Valid()
      reads this, buckets
    {
      && buckets.Length > 0 && bucketWidth > 0
      && (forall i :: 0 <= i < buckets.Length ==> Shows(buckets[i], log, i, buckets.Length))
    }

    constructor (count: nat, bucketWidth: nat, epoch: nat)
      requires count > 0
      ensures Valid() && log == [] && buckets.Length == count && fresh(buckets)
      ensures this.epoch == epoch
      ensures this.bucketWidth == if bucketWidth < NANOS_PER_MILLI then NANOS_PER_MILLI else bucketWidth
    {
      buckets := new Bucket[count](_ => Bucket(0, 0, 0));
      this.bucketWidth := if bucketWidth < NANOS_PER_MILLI then NANOS_PER_MILLI else bucketWidth;
      this.epoch := epoch;
      log := [];
    }

    /** The number of the slice `now` lies in, truncated to 64 bits; times before the epoch count as the epoch. */
    function AbsoluteBucket(now: nat): nat
      requires bucketWidth > 0
    {
      ((if now < epoch then 0 else now - epoch) / bucketWidth) % (U64_MAX + 1)
    }

    /** The slot of a slice, emptied if it still shows an older one, or none if it shows a newer one. */
    method BucketAt(absolute: nat) returns (slot: Option<nat>)
      requires buckets.Length > 0
      modifies buckets
      ensures var i := absolute % buckets.Length;
              && (slot.None? <==> absolute < old(buckets[i].stamp))
              && (slot.Some? ==> slot.value == i)
              && buckets[..] == old(buckets[..])[i := if absolute > old(buckets[i].stamp) then Bucket(absolute, 0, 0)
                                                      else old(buckets[i])]
    {
      var i := absolute % buckets.Length;
      if absolute < buckets[i].stamp {
        return None;
      }
      if absolute > buckets[i].stamp {
        buckets[i] := Bucket(absolute, 0, 0);
      }
      slot := Some(i);
    }

    method RecordExpected(count: U64, now: nat)
      requires Valid()
      modifies this`log, buckets
      ensures Valid() && log == old(log) + [Record(Expected, AbsoluteBucket(now), count)]
    {
      ghost var r := Record(Expected, AbsoluteBucket(now), count);
      ghost var before := buckets[..];
      var slot := BucketAt(AbsoluteBucket(now));
      if slot.Some? {
        var bucket := buckets[slot.value];
        buckets[slot.value] := bucket.(expected := Saturated(bucket.expected + count));
      }
      log := log + [r];
      forall i | 0 <= i < buckets.Length ensures Shows(buckets[i], log, i, buckets.Length) {
        ShowsAfter(before[i], old(log), r, i, buckets.Length);
      }
    }

    method RecordObserved(count: U64, now: nat)
      requires Valid()
      modifies this`log, buckets
      ensures Valid() && log == old(log) + [Record(Observed, AbsoluteBucket(now), count)]
    {
      ghost var r := Record(Observed, AbsoluteBucket(now), count);
      ghost var before := buckets[..];
      var slot := BucketAt(AbsoluteBucket(now));
      if slot.Some? {
        var bucket := buckets[slot.value];
        buckets[slot.value] := bucket.(observed := Saturated(bucket.observed + count));
      }
      log := log + [r];
      forall i | 0 <= i < buckets.Length ensures Shows(buckets[i], log, i, buckets.Length) {
        ShowsAfter(before[i], old(log), r, i, buckets.Length);
      }
    }

    /** The width of a read in slices: at least one, at most the ring. */
    function Width(slices: nat): nat
      requires buckets.Length > 0
    {
      if slices < 1 then 1 else if slices > buckets.Length then buckets.Length else slices
    }

    function Oldest(slices: nat, now: nat): nat
      requires buckets.Length > 0 && bucketWidth > 0
    {
      var current, width := AbsoluteBucket(now), Width(slices);
      if current < width - 1 then 0 else current - (width - 1)
    }

    /** Observed over expected in the most recent slices, or none when nothing was expected in them. */
    function RecentValue(slices: nat, now: nat): Option<real>
      requires buckets.Length > 0 && bucketWidth > 0
      reads buckets
    {
      var current, oldest := AbsoluteBucket(now), Oldest(slices, now);
      var expected := Fold(buckets[..], Expected, oldest, current);
      var observed := Fold(buckets[..], Observed, oldest, current);
      if expected > 0 then Some(Ratio(observed, expected)) else None
    }

    /**
     A read shows exactly the saturated totals of the live records of the window: those whose slice
     is the newest one recorded in its slot. Late records take nothing away and stale ones add nothing.
    */
    lemma ReadsLiveRecords(slices: nat, now: nat)
      requires Valid()
      ensures var k, current := buckets.Length, AbsoluteBucket(now);
              var n, stamps := Max(1, Min(slices, k)), Newests(log, k);
              var expected := Saturated(LiveTotal(log, stamps, k, Expected, n, current));
              var observed := Saturated(LiveTotal(log, stamps, k, Observed, n, current));
              && (RecentValue(slices, now).None? <==> expected == 0)
              && (expected > 0 ==> RecentValue(slices, now) == Some(Ratio(observed, expected)))
    {
      var k, n := buckets.Length, Max(1, Min(slices, buckets.Length));
      assert buckets[..][..k] == buckets[..];
      FoldIsLiveTotal(buckets[..], k, log, Expected, Oldest(slices, now), n, AbsoluteBucket(now));
      FoldIsLiveTotal(buckets[..], k, log, Observed, Oldest(slices, now), n, AbsoluteBucket(now));
    }

    /**
     A read at any time, also one before the newest record: the totals it is made of are those of the
     whole log in the window exactly if no record of the window was overtaken, that is, had its slot
     reused for a later slice; and then its value is that of the whole log.
    */
    lemma ReadsWholeWindowIff(slices: nat, now: nat)
      requires Valid()
      ensures var k, current := buckets.Length, AbsoluteBucket(now);
              var n := Max(1, Min(slices, k));
              var expected := Saturated(WindowTotal(log, Expected, n, current));
              var observed := Saturated(WindowTotal(log, Observed, n, current));
              && (forall kind :: LiveTotal(log, Newests(log, k), k, kind, n, current) == WindowTotal(log, kind, n, current)
                                 <==> NoneOvertaken(log, log, k, kind, n, current))
              && (NoneOvertaken(log, log, k, Expected, n, current) && NoneOvertaken(log, log, k, Observed, n, current) ==>
                    RecentValue(slices, now) == if expected == 0 then None else Some(Ratio(observed, expected)))
    {
      hide LiveTotal, WindowTotal, Newests, NoneOvertaken, Fold, Ratio;
      var k, current := buckets.Length, AbsoluteBucket(now);
      var n := Max(1, Min(slices, k));
      forall kind
        ensures LiveTotal(log, Newests(log, k), k, kind, n, current) == WindowTotal(log, kind, n, current)
                <==> NoneOvertaken(log, log, k, kind, n, current)
      {
        NothingLostIff(log, log, k, kind, n, current);
      }
      ReadsLiveRecords(slices, now);
    }

    /**
     Read no earlier than anything recorded, the ring and the log agree: the value is the ratio of everything
     observed to everything expected in the last slices, as many as asked for but at least one and at most the
     ring, whatever order it was recorded in.
    */
    lemma RingRefinesLog(slices: nat, now: nat)
      requires Valid()
      requires forall r :: r in log ==> r.slice <= AbsoluteBucket(now)
      ensures var n, current := Max(1, Min(slices, buckets.Length)), AbsoluteBucket(now);
              var expected := Saturated(WindowTotal(log, Expected, n, current));
              var observed := Saturated(WindowTotal(log, Observed, n, current));
              var value := RecentValue(slices, now);
              && (value.None? <==> WindowTotal(log, Expected, n, current) == 0)
              && (value.Some? ==> value.value == Ratio(observed, expected) && 0.0 <= value.value <= 1.0)
    {
      var k, n := buckets.Length, Max(1, Min(slices, buckets.Length));
      ReadsLiveRecords(slices, now);
      WholeWindowLive(log, log, k, Expected, n, AbsoluteBucket(now));
      WholeWindowLive(log, log, k, Observed, n, AbsoluteBucket(now));
    }

    /** Slice `b` stands for the `b`-th bucket width of time after the epoch; earlier times count as the epoch. */
    lemma SliceSpan(now: nat, b: nat)
      requires bucketWidth > 0 && b <= U64_MAX
      requires now < epoch + bucketWidth * (U64_MAX + 1)
      ensures AbsoluteBucket(now) == b <==>
              if now < epoch then b == 0 else epoch + bucketWidth * b <= now < epoch + bucketWidth * (b + 1)
    {
      var x := if now < epoch then 0 else now - epoch;
      DivIff(x, bucketWidth, b);
      DivIff(x, bucketWidth, x / bucketWidth);
      if x / bucketWidth > U64_MAX {
        MulGap(bucketWidth, U64_MAX, x / bucketWidth);
        assert false;
      }
    }
  }

  lemma DivIff(x: nat, w: nat, b: nat)
    requires w > 0
    ensures x / w == b <==> w * b <= x < w * (b + 1)
  {
    var q := x / w;
    assert w * q <= x < w * (q + 1) by {
      assert x == w * q + x % w;
    }
    if q < b {
      MulGap(w, q, b);
    } else if b < q {
      MulGap(w, b, q);
    }
  }

  /** The ratio of two counts, clamped to at most one. */
  function Ratio(observed: U64, expected: U64): (r: real)
    requires expected > 0
    ensures 0.0 <= r <= 1.0
    ensures r == 1.0 <==> observed >= expected
    ensures observed <= expected ==> r * expected as real == observed as real
  {
    if observed >= expected then 1.0 else observed as real / expected as real
  }
}
