/** What the traffic sampler stands for: the whole history of points, and the averages of its
  * consecutive chunks. */
module TrafficHistory {
  import opened Sequences

  datatype Point = Point(up: real, down: real, timestamp: real)

  datatype Compressed = Compressed(up: real, down: real, timestamp: real, samples: nat)

  function Up(p: Point): real { p.up }
  function Down(p: Point): real { p.down }
  function Time(p: Point): real { p.timestamp }
  function CompressedTime(c: Compressed): real { c.timestamp }

  function Sum(s: seq<Point>, value: Point -> real): real {
    if s == [] then 0.0 else value(s[0]) + Sum(s[1..], value)
  }

  /** One compressed point for a chunk. */
  function Average(chunk: seq<Point>): Compressed
    requires chunk != []
  {
    var n := |chunk| as real;
    Compressed(Sum(chunk, Up) / n, Sum(chunk, Down) / n, Sum(chunk, Time) / n, |chunk|)
  }

  /** The averages of the complete chunks of n points, oldest first. */
  function Chunks(h: seq<Point>, n: nat): seq<Compressed>
    requires n > 0
  {
    if |h| < n then [] else [Average(h[..n])] + Chunks(h[n..], n)
  }

  /** The points after the last complete chunk. */
  function Tail(h: seq<Point>, n: nat): (t: seq<Point>)
    requires n > 0
    ensures |t| < n && |t| <= |h|
  {
    if |h| < n then h else Tail(h[n..], n)
  }

  /** A new point either joins the tail or completes a chunk. */
  lemma {:induction false} ChunksGrow(h: seq<Point>, p: Point, n: nat)
    requires n > 0
    ensures var tail := Tail(h, n) + [p];
            if |tail| < n then Chunks(h + [p], n) == Chunks(h, n) && Tail(h + [p], n) == tail
            else Chunks(h + [p], n) == Chunks(h, n) + [Average(tail)] && Tail(h + [p], n) == []
  {
    if |h| < n {
      if |h| + 1 == n {
        assert (h + [p])[..n] == h + [p] && (h + [p])[n..] == [];
      }
    } else {
      assert (h + [p])[..n] == h[..n] && (h + [p])[n..] == h[n..] + [p];
      ChunksGrow(h[n..], p, n);
    }
  }

  lemma {:induction false} SumAppend(a: seq<Point>, b: seq<Point>, value: Point -> real)
    ensures Sum(a + b, value) == Sum(a, value) + Sum(b, value)
  {
    if a == [] {
      assert a + b == b;
    } else {
      assert (a + b)[1..] == a[1..] + b;
      SumAppend(a[1..], b, value);
    }
  }

  /** The volume that compressed points stand for: samples times average. */
  function Volume(cs: seq<Compressed>, value: Compressed -> real): real {
    if cs == [] then 0.0 else Weight(cs[0], value) + Volume(cs[1..], value)
  }

  function Weight(c: Compressed, value: Compressed -> real): real {
    c.samples as real * value(c)
  }

  function CompressedUp(c: Compressed): real { c.up }
  function CompressedDown(c: Compressed): real { c.down }

  lemma ChunkVolume(chunk: seq<Point>)
    requires chunk != []
    ensures Weight(Average(chunk), CompressedUp) == Sum(chunk, Up)
    ensures Weight(Average(chunk), CompressedDown) == Sum(chunk, Down)
    ensures Weight(Average(chunk), CompressedTime) == Sum(chunk, Time)
  {
    hide Sum;
  }

  lemma VolumeCons(c: Compressed, cs: seq<Compressed>, value: Compressed -> real)
    ensures Volume([c] + cs, value) == Weight(c, value) + Volume(cs, value)
  {
    assert ([c] + cs)[1..] == cs;
  }

  lemma ChunksStep(h: seq<Point>, n: nat)
    requires 0 < n <= |h|
    ensures Chunks(h, n) == [Average(h[..n])] + Chunks(h[n..], n)
    ensures Chunks(h, n)[0] == Average(h[..n]) && Chunks(h, n)[1..] == Chunks(h[n..], n)
    ensures Tail(h, n) == Tail(h[n..], n)
    ensures h == h[..n] + h[n..]
  {
  }

  lemma {:induction false} Conserves(h: seq<Point>, n: nat, average: Compressed -> real, value: Point -> real)
    requires n > 0
    requires forall chunk :: chunk != [] ==> Weight(Average(chunk), average) == Sum(chunk, value)
    ensures Volume(Chunks(h, n), average) + Sum(Tail(h, n), value) == Sum(h, value)
  {
    hide Weight, Average;
    if |h| >= n {
      hide Sum, Tail, Chunks, Volume;
      Conserves(h[n..], n, average, value);
      ChunksStep(h, n);
      VolumeCons(Average(h[..n]), Chunks(h[n..], n), average);
      SumAppend(h[..n], h[n..], value);
    }
  }

  /** Compression conserves both totals, and the average times too. */
  lemma CompressionConservesTotals(h: seq<Point>, n: nat)
    requires n > 0
    ensures Volume(Chunks(h, n), CompressedUp) + Sum(Tail(h, n), Up) == Sum(h, Up)
    ensures Volume(Chunks(h, n), CompressedDown) + Sum(Tail(h, n), Down) == Sum(h, Down)
    ensures Volume(Chunks(h, n), CompressedTime) + Sum(Tail(h, n), Time) == Sum(h, Time)
  {
    hide Weight, Average, Sum, Tail, Chunks, Volume;
    forall chunk | chunk != []
      ensures Weight(Average(chunk), CompressedUp) == Sum(chunk, Up)
      ensures Weight(Average(chunk), CompressedDown) == Sum(chunk, Down)
      ensures Weight(Average(chunk), CompressedTime) == Sum(chunk, Time)
    {
      ChunkVolume(chunk);
    }
    Conserves(h, n, CompressedUp, Up);
    Conserves(h, n, CompressedDown, Down);
    Conserves(h, n, CompressedTime, Time);
  }

  lemma OneMore(k: nat, n: nat)
    ensures (k + 1) * n == k * n + n
  {
  }

  /** Every n points make one compressed point, and what remains is queued. */
  lemma {:induction false} ChunksAreComplete(h: seq<Point>, n: nat)
    requires n > 0
    ensures |Chunks(h, n)| * n + |Tail(h, n)| == |h|
    ensures Tail(h, n) == h[|h| - |Tail(h, n)|..]
  {
    if |h| >= n {
      hide Chunks, Tail, Average;
      ChunksAreComplete(h[n..], n);
      ChunksStep(h, n);
      OneMore(|Chunks(h[n..], n)|, n);
    } else {
      assert Chunks(h, n) == [];
    }
  }

  lemma {:induction false} ChunksAreFull(h: seq<Point>, n: nat)
    requires n > 0
    ensures forall c :: c in Chunks(h, n) ==> c.samples == n
  {
    if |h| >= n {
      ChunksAreFull(h[n..], n);
      assert Average(h[..n]).samples == n;
    }
  }

  ghost predicate Sorted<T>(s: seq<T>, time: T -> real) {
    forall i, j :: 0 <= i <= j < |s| ==> time(s[i]) <= time(s[j])
  }

  lemma {:induction false} SumBetween(s: seq<Point>, low: real, high: real)
    requires forall i :: 0 <= i < |s| ==> low <= Time(s[i]) <= high
    ensures |s| as real * low <= Sum(s, Time) <= |s| as real * high
  {
    if s != [] {
      SumBetween(s[1..], low, high);
      assert |s| as real == 1.0 + |s[1..]| as real;
    }
  }

  lemma Cancel(n: real, a: real, b: real)
    requires n > 0.0 && n * a <= n * b
    ensures a <= b
  {
  }

  lemma Quotient(low: real, x: real, high: real, n: real)
    requires n > 0.0 && n * low <= x <= n * high
    ensures low <= x / n <= high
  {
    assert n * (x / n) == x;
    Cancel(n, low, x / n);
    Cancel(n, x / n, high);
  }

  lemma AverageBetween(chunk: seq<Point>, low: real, high: real)
    requires chunk != []
    requires forall i :: 0 <= i < |chunk| ==> low <= Time(chunk[i]) <= high
    ensures low <= Average(chunk).timestamp <= high
  {
    SumBetween(chunk, low, high);
    Quotient(low, Sum(chunk, Time), high, |chunk| as real);
  }

  /** Averages of chunks of an ordered history are ordered, and none precedes its first point. */
  lemma {:induction false} ChunksAreSorted(h: seq<Point>, n: nat)
    requires n > 0 && Sorted(h, Time)
    ensures Sorted(Chunks(h, n), CompressedTime)
    ensures forall k :: 0 <= k < |Chunks(h, n)| ==> h != [] && Time(h[0]) <= CompressedTime(Chunks(h, n)[k])
  {
    if |h| >= n {
      var rest := Chunks(h[n..], n);
      ChunksAreSorted(h[n..], n);
      AverageBetween(h[..n], Time(h[0]), Time(h[n - 1]));
      forall k | 0 <= k < |rest|
        ensures Time(h[n - 1]) <= CompressedTime(rest[k])
      {
        assert h[n..][0] == h[n];
      }
    }
  }

  /** The k-th compressed point is the average of the k-th chunk. */
  lemma {:induction false} ChunkAt(h: seq<Point>, n: nat, k: nat)
    requires n > 0 && k < |Chunks(h, n)|
    ensures 0 <= k * n <= (k + 1) * n <= |h|
    ensures Chunks(h, n)[k] == Average(h[k * n..(k + 1) * n])
  {
    hide Average;
    if k > 0 {
      ChunkAt(h[n..], n, k - 1);
      assert (k - 1) * n + n == k * n && k * n + n == (k + 1) * n;
      assert h[n..][(k - 1) * n..k * n] == h[k * n..(k + 1) * n];
    }
  }

  /** The chunk that a point belongs to, complete or not. */
  lemma ChunkOf(i: nat, n: nat)
    requires n > 0
    ensures (i / n) * n <= i < (i / n + 1) * n
  {
    assert i == n * (i / n) + i % n;
  }

  lemma TimesGrows(a: int, b: int, n: nat)
    ensures a < b ==> (a + 1) * n <= b * n
  {
  }

  lemma LastOfChunk(n: nat, k: nat)
    requires n > 0
    ensures 0 <= (k + 1) * n - 1 && ((k + 1) * n - 1) / n == k
  {
    var i := (k + 1) * n - 1;
    assert (k + 1) * n == k * n + n && k * n >= 0;
    ChunkOf(i, n);
    TimesGrows(i / n, k, n);
    TimesGrows(k, i / n, n);
  }

  /** A query from `cutoff` shows a point itself when it is one of the `live` last ones and newer. */
  predicate ShownRaw(h: seq<Point>, live: nat, i: nat, cutoff: real)
    requires i < |h|
  {
    |h| - live <= i && h[i].timestamp > cutoff
  }

  /** And it shows the point in the average of its chunk when that lies in the compressed range. */
  predicate ShownCompressed(h: seq<Point>, n: nat, i: nat, cutoff: real, upper: real)
    requires n > 0
  {
    i / n < |Chunks(h, n)| && cutoff < Chunks(h, n)[i / n].timestamp <= upper
  }

  ghost predicate ShowsTwice(h: seq<Point>, n: nat, live: nat, cutoff: real, upper: real)
    requires n > 0
  {
    exists i :: 0 <= i < |h| && ShownRaw(h, live, i, cutoff) && ShownCompressed(h, n, i, cutoff, upper)
  }

  /** A chunk with its average in the compressed range ends in the live part. */
  ghost predicate Straddles(h: seq<Point>, n: nat, live: nat, cutoff: real, upper: real)
    requires n > 0
  {
    exists k :: 0 <= k < |Chunks(h, n)| && cutoff < Chunks(h, n)[k].timestamp <= upper && |h| - live < (k + 1) * n
  }

  /** A long query shows some point both itself and in an average exactly when a chunk straddles. */
  lemma LongQueryShowsTwiceIff(h: seq<Point>, n: nat, live: nat, cutoff: real, upper: real)
    requires n > 0 && Sorted(h, Time)
    ensures ShowsTwice(h, n, live, cutoff, upper) <==> Straddles(h, n, live, cutoff, upper)
  {
    hide Chunks, Average;
    if ShowsTwice(h, n, live, cutoff, upper) {
      var i :| 0 <= i < |h| && ShownRaw(h, live, i, cutoff) && ShownCompressed(h, n, i, cutoff, upper);
      ChunkOf(i, n);
      assert Chunks(h, n)[i / n].timestamp <= upper;
    }
    if Straddles(h, n, live, cutoff, upper) {
      var k :| 0 <= k < |Chunks(h, n)| && cutoff < Chunks(h, n)[k].timestamp <= upper && |h| - live < (k + 1) * n;
      EndOfChunk(h, n, k);
      LastOfChunk(n, k);
      var i := (k + 1) * n - 1;
      assert ShownRaw(h, live, i, cutoff) && ShownCompressed(h, n, i, cutoff, upper);
    }
  }

  /** No average is later than the last point of its chunk. */
  lemma EndOfChunk(h: seq<Point>, n: nat, k: nat)
    requires n > 0 && Sorted(h, Time) && k < |Chunks(h, n)|
    ensures 0 < (k + 1) * n <= |h| && Chunks(h, n)[k].timestamp <= h[(k + 1) * n - 1].timestamp
  {
    hide Chunks, Average;
    ChunkAt(h, n, k);
    assert (k + 1) * n == k * n + n;
    var chunk := h[k * n..(k + 1) * n];
    forall j | 0 <= j < |chunk|
      ensures Time(chunk[0]) <= Time(chunk[j]) <= Time(chunk[n - 1])
    {
      assert chunk[j] == h[k * n + j];
    }
    AverageBetween(chunk, Time(chunk[0]), Time(chunk[n - 1]));
  }

  /** It happens: with a raw range of one minute and chunks of two, a point after 100 seconds and one
    * at the start are averaged to 50 seconds, and at 110 seconds both that and the second are shown. */
  lemma LongQueriesCanShowTwice()
    ensures var h := [Point(1.0, 1.0, 0.0), Point(1.0, 1.0, 100000.0)];
            ShowsTwice(h, 2, 1, -1.0, 110000.0 - 60000.0)
  {
    var h := [Point(1.0, 1.0, 0.0), Point(1.0, 1.0, 100000.0)];
    assert h[..2] == h && h[1..] == [h[1]] && h[1..][1..] == [];
    assert Sum(h, Time) == 100000.0;
    assert Chunks(h, 2) == [Average(h[..2])] + Chunks(h[2..], 2);
    assert Chunks(h, 2)[0].timestamp == 50000.0;
    assert ShownRaw(h, 1, 1, -1.0) && ShownCompressed(h, 2, 1, -1.0, 50000.0);
  }

  // ---- Cutting off the past ---------------------------------------------------------------------

  function After<T>(time: T -> real, cutoff: real): T -> bool {
    (x: T) => time(x) > cutoff
  }

  /** Skipping the leading expired elements of an ordered list is filtering it. */
  lemma SkippingFilters<T(!new)>(s: seq<T>, i: nat, time: T -> real, cutoff: real)
    requires Sorted(s, time) && i <= |s|
    requires forall k :: 0 <= k < i ==> time(s[k]) <= cutoff
    requires i < |s| ==> time(s[i]) > cutoff
    ensures Filter(s, After(time, cutoff)) == s[i..]
  {
    assert s == s[..i] + s[i..];
    FilterAppend(s[..i], s[i..], After(time, cutoff));
    FilterNone(s[..i], After(time, cutoff));
    forall x | x in s[i..]
      ensures time(x) > cutoff
    {
      var k :| i <= k < |s| && s[k] == x;
    }
    FilterAll(s[i..], After(time, cutoff));
  }

  /** Dropping a prefix that had expired before the cutoff does not change the filter. */
  lemma DroppingExpired<T(!new)>(s: seq<T>, d: nat, time: T -> real, cutoff: real)
    requires d <= |s| && forall k :: 0 <= k < d ==> time(s[k]) <= cutoff
    ensures Filter(s, After(time, cutoff)) == Filter(s[d..], After(time, cutoff))
  {
    assert s == s[..d] + s[d..];
    FilterAppend(s[..d], s[d..], After(time, cutoff));
    FilterNone(s[..d], After(time, cutoff));
  }

  // ---- Ordering by time -------------------------------------------------------------------------

  /** A stable insertion after all points that are not later. */
  function Insert(s: seq<Point>, p: Point): seq<Point> {
    if s == [] || s[|s| - 1].timestamp <= p.timestamp then s + [p]
    else Insert(s[..|s| - 1], p) + [s[|s| - 1]]
  }

  /** The stable sort by timestamp. */
  function ByTime(s: seq<Point>): seq<Point> {
    if s == [] then [] else Insert(ByTime(s[..|s| - 1]), s[|s| - 1])
  }

  lemma {:induction false} InsertPermutes(s: seq<Point>, p: Point)
    ensures multiset(Insert(s, p)) == multiset(s) + multiset{p}
  {
    if s != [] && s[|s| - 1].timestamp > p.timestamp {
      assert s == s[..|s| - 1] + [s[|s| - 1]];
      InsertPermutes(s[..|s| - 1], p);
    }
  }

  lemma {:induction false} InsertSorted(s: seq<Point>, p: Point)
    requires Sorted(s, Time)
    ensures Sorted(Insert(s, p), Time)
  {
    if s != [] && s[|s| - 1].timestamp > p.timestamp {
      var init, last := s[..|s| - 1], s[|s| - 1];
      InsertSorted(init, p);
      InsertPermutes(init, p);
      var head := Insert(init, p);
      forall i | 0 <= i < |head|
        ensures Time(head[i]) <= Time(last)
      {
        assert head[i] in multiset(head);
        assert head[i] == p || head[i] in init;
      }
    }
  }

  lemma NothingSorted()
    ensures Sorted<Point>([], Time)
  {
  }

  lemma {:induction false} ByTimeSorts(s: seq<Point>)
    ensures Sorted(ByTime(s), Time) && multiset(ByTime(s)) == multiset(s)
  {
    hide Insert, Sorted;
    if s == [] {
      NothingSorted();
    } else {
      ByTimeSorts(s[..|s| - 1]);
      InsertPermutes(ByTime(s[..|s| - 1]), s[|s| - 1]);
      InsertSorted(ByTime(s[..|s| - 1]), s[|s| - 1]);
      assert s == s[..|s| - 1] + [s[|s| - 1]];
    }
  }
}

/** The sampler itself: two buffers with moving heads that are compacted now and then. */
module TrafficSampler {
  import opened Sequences
  import opened TrafficHistory

  function Ms(minutes: real): real {
    minutes * 60000.0
  }

  datatype Stats = Stats(raw: nat, compressed: nat, queue: nat, total: nat)

  class TrafficDataSampler {
    const rawDataMinutes: real
    const compressedDataMinutes: real
    const compressionRatio: int

    var rawBuffer: seq<Point>
    var rawHead: nat
    var compressedBuffer: seq<Compressed>
    var compressedHead: nat
    var compressionQueue: seq<Point>

    /** Every point added since the last clear, and the latest clock reading. */
    ghost var history: seq<Point>
    ghost var clock: real

    /** The number of points that make a compressed one. */
    ghost function ChunkSize(): nat {
      if compressionRatio < 1 then 1 else compressionRatio
    }

    ghost function Made(): seq<Compressed>
      reads this
    {
      Chunks(history, ChunkSize())
    }

    ghost predicate Valid()
      reads this
    {
      && Follows(history, Time, rawBuffer, rawHead, clock - Ms(rawDataMinutes), 512)
      && Follows(Made(), CompressedTime, compressedBuffer, compressedHead,
                 clock - Ms(compressedDataMinutes), 256)
      && compressionQueue == Tail(history, ChunkSize())
    }

    constructor (rawDataMinutes: real, compressedDataMinutes: real, compressionRatio: int)
      ensures Valid() && history == []
      ensures this.rawDataMinutes == rawDataMinutes && this.compressedDataMinutes == compressedDataMinutes
      ensures this.compressionRatio == compressionRatio
    {
      this.rawDataMinutes := rawDataMinutes;
      this.compressedDataMinutes := compressedDataMinutes;
      this.compressionRatio := compressionRatio;
      rawBuffer, rawHead := [], 0;
      compressedBuffer, compressedHead := [], 0;
      compressionQueue := [];
      history := [];
      clock := 0.0;
    }

    /** Adds a point; the clock is read once for each buffer. What has expired by then leaves the live
      * parts, so that on an ordered history they are exactly what has not. */
    method AddDataPoint(point: Point, now: real, later: real)
      requires Valid()
      modifies this
      ensures Valid() && history == old(history) + [point]
      ensures clock == Max(old(clock), Max(now, later))
      ensures rawHead < |rawBuffer| ==> rawBuffer[rawHead].timestamp > now - rawDataMinutes * 60000.0
      ensures compressedHead < |compressedBuffer| ==>
                compressedBuffer[compressedHead].timestamp > later - compressedDataMinutes * 60000.0
      ensures Sorted(history, Time) && old(clock) <= now ==>
                rawBuffer[rawHead..] == Filter(history, After(Time, now - rawDataMinutes * 60000.0))
      ensures Sorted(history, Time) && old(clock) <= later ==>
                compressedBuffer[compressedHead..]
                == Filter(Made(), After(CompressedTime, later - compressedDataMinutes * 60000.0))
    {
      MsIs(rawDataMinutes);
      MsIs(compressedDataMinutes);
      hide Follows, Covers, Chunks, Tail, Ms, Filter;
      PushRaw(point, now);
      PushCompressed(point, later);
      history := history + [point];
      ghost var latest := Max(clock, Max(now, later));
      LiveIsFilter(history, Time, rawBuffer, rawHead, clock, now, Ms(rawDataMinutes), 512);
      ChunksSortedIf(history, ChunkSize());
      LiveIsFilter(Made(), CompressedTime, compressedBuffer, compressedHead, clock, later,
                   Ms(compressedDataMinutes), 256);
      FollowsLater(history, Time, rawBuffer, rawHead, Max(clock, now) - Ms(rawDataMinutes),
                   latest - Ms(rawDataMinutes), 512);
      FollowsLater(Made(), CompressedTime, compressedBuffer, compressedHead,
                   Max(clock, later) - Ms(compressedDataMinutes), latest - Ms(compressedDataMinutes), 256);
      clock := latest;
    }

    method PushRaw(point: Point, now: real)
      requires Follows(history, Time, rawBuffer, rawHead, clock - Ms(rawDataMinutes), 512)
      modifies this`rawBuffer, this`rawHead
      ensures Follows(history + [point], Time, rawBuffer, rawHead, Max(clock, now) - Ms(rawDataMinutes), 512)
      ensures rawHead < |rawBuffer| ==> rawBuffer[rawHead].timestamp > now - Ms(rawDataMinutes)
    {
      CoversMore(history, point, Time, rawBuffer, rawHead, clock - Ms(rawDataMinutes));
      rawBuffer := rawBuffer + [point];
      var rawCutoff := now - Ms(rawDataMinutes);
      rawBuffer, rawHead := Trim(history + [point], Time, rawBuffer, rawHead,
                                 clock - Ms(rawDataMinutes), rawCutoff, 512);
    }

    /** Queues a point and compresses a full queue. */
    method Enqueue(point: Point)
      requires Covers(Made(), CompressedTime, compressedBuffer, compressedHead, clock - Ms(compressedDataMinutes))
      requires compressionQueue == Tail(history, ChunkSize())
      modifies this`compressionQueue, this`compressedBuffer
      ensures Covers(Chunks(history + [point], ChunkSize()), CompressedTime, compressedBuffer, compressedHead,
                     clock - Ms(compressedDataMinutes))
      ensures compressionQueue == Tail(history + [point], ChunkSize())
    {
      hide Chunks, Tail, Average, Covers, Ms;
      ChunksGrow(history, point, ChunkSize());
      compressionQueue := compressionQueue + [point];
      if |compressionQueue| >= compressionRatio {
        CoversMore(Made(), Average(compressionQueue), CompressedTime, compressedBuffer, compressedHead,
                   clock - Ms(compressedDataMinutes));
        CompressData();
      }
    }

    method PushCompressed(point: Point, later: real)
      requires Follows(Made(), CompressedTime, compressedBuffer, compressedHead,
                       clock - Ms(compressedDataMinutes), 256)
      requires compressionQueue == Tail(history, ChunkSize())
      modifies this`compressionQueue, this`compressedBuffer, this`compressedHead
      ensures Follows(Chunks(history + [point], ChunkSize()), CompressedTime, compressedBuffer, compressedHead,
                      Max(clock, later) - Ms(compressedDataMinutes), 256)
      ensures compressedHead < |compressedBuffer| ==>
                compressedBuffer[compressedHead].timestamp > later - Ms(compressedDataMinutes)
      ensures compressionQueue == Tail(history + [point], ChunkSize())
    {
      hide Chunks, Tail, Covers, Ms;
      Enqueue(point);
      var compressedCutoff := later - Ms(compressedDataMinutes);
      compressedBuffer, compressedHead := Trim(Chunks(history + [point], ChunkSize()), CompressedTime,
                                               compressedBuffer, compressedHead,
                                               clock - Ms(compressedDataMinutes), compressedCutoff, 256);
    }

    method CompressData()
      modifies this`compressedBuffer, this`compressionQueue
      ensures old(compressionQueue) == [] ==> compressedBuffer == old(compressedBuffer)
      ensures old(compressionQueue) != [] ==>
                compressedBuffer == old(compressedBuffer) + [Average(old(compressionQueue))]
      ensures compressionQueue == []
    {
      if compressionQueue == [] {
        return;
      }
      var n := |compressionQueue| as real;
      var up, down, time := 0.0, 0.0, 0.0;
      for i := 0 to |compressionQueue|
        invariant up + Sum(compressionQueue[i..], Up) == Sum(compressionQueue, Up)
        invariant down + Sum(compressionQueue[i..], Down) == Sum(compressionQueue, Down)
        invariant time + Sum(compressionQueue[i..], Time) == Sum(compressionQueue, Time)
      {
        var p := compressionQueue[i];
        assert compressionQueue[i..][0] == p && compressionQueue[i..][1..] == compressionQueue[i + 1..];
        up, down, time := up + p.up, down + p.down, time + p.timestamp;
      }
      compressedBuffer := compressedBuffer + [Compressed(up / n, down / n, time / n, |compressionQueue|)];
      compressionQueue := [];
    }

    /** The live points after the cutoff; all points after it when the cutoff is recent enough. */
    method RawAfter(cutoff: real) returns (data: seq<Point>)
      requires Valid()
      ensures Sorted(history, Time) ==> data == Filter(rawBuffer[rawHead..], After(Time, cutoff))
      ensures Sorted(history, Time) && clock - Ms(rawDataMinutes) <= cutoff ==>
                data == Filter(history, After(Time, cutoff))
    {
      hide Filter, Chunks, Tail, Ms;
      var start := SkipExpired(rawBuffer, Time, rawHead, cutoff);
      data := rawBuffer[start..];
      if Sorted(history, Time) {
        SortedEnd(history, rawBuffer, Time);
        LiveFilters(rawBuffer, Time, rawHead, start, cutoff);
        if clock - Ms(rawDataMinutes) <= cutoff {
          LiveSuffices(history, Time, rawBuffer, rawHead, clock - Ms(rawDataMinutes), start, cutoff);
        }
      }
    }

    /** The live compressed points after the cutoff; all that were ever made after it when the cutoff
      * is recent enough. */
    method CompressedAfter(cutoff: real) returns (data: seq<Compressed>)
      requires Valid()
      ensures Sorted(history, Time) ==>
                data == Filter(compressedBuffer[compressedHead..], After(CompressedTime, cutoff))
      ensures Sorted(history, Time) && clock - Ms(compressedDataMinutes) <= cutoff ==>
                data == Filter(Made(), After(CompressedTime, cutoff))
    {
      hide Filter, Chunks, Tail, Ms;
      var start := SkipExpired(compressedBuffer, CompressedTime, compressedHead, cutoff);
      data := compressedBuffer[start..];
      if Sorted(history, Time) {
        ChunksAreSorted(history, ChunkSize());
        SortedEnd(Made(), compressedBuffer, CompressedTime);
        LiveFilters(compressedBuffer, CompressedTime, compressedHead, start, cutoff);
      }
      if Sorted(history, Time) && clock - Ms(compressedDataMinutes) <= cutoff {
        LiveSuffices(Made(), CompressedTime, compressedBuffer, compressedHead,
                     clock - Ms(compressedDataMinutes), start, cutoff);
      }
    }

    /** Answers a query with the clock read at most twice. On an ordered history a query of at most
      * the raw range returns exactly the points after the cutoff; a longer one joins the exact chunk
      * averages of the older part with the live points, ordered by time. */
    method GetDataForTimeRange(minutes: real, now: real, later: real) returns (data: seq<Point>)
      requires Valid()
      ensures minutes <= rawDataMinutes && now >= clock && Sorted(history, Time) ==>
                data == Filter(history, After(Time, now - minutes * 60000.0))
      ensures rawDataMinutes < minutes && Sorted(history, Time) ==>
                var older := Filter(compressedBuffer[compressedHead..], After(CompressedTime, now - minutes * 60000.0));
                data == ByTime(Strip(Filter(older, UpTo(later - rawDataMinutes * 60000.0)))
                               + Filter(rawBuffer[rawHead..], After(Time, now - minutes * 60000.0)))
      ensures rawDataMinutes < minutes <= compressedDataMinutes && now >= clock && Sorted(history, Time) ==>
                Filter(compressedBuffer[compressedHead..], After(CompressedTime, now - minutes * 60000.0))
                == Filter(Made(), After(CompressedTime, now - minutes * 60000.0))
    {
      MsIs(minutes);
      MsIs(rawDataMinutes);
      hide Filter, Chunks, Tail, Follows, Ms, ByTime, Strip;
      var cutoff := now - Ms(minutes);
      var rawData := RawAfter(cutoff);
      if minutes <= rawDataMinutes {
        Scale(minutes, rawDataMinutes);
        return rawData;
      }
      var upper := later - Ms(rawDataMinutes);
      var compressed := CompressedAfter(cutoff);
      if minutes <= compressedDataMinutes {
        Scale(minutes, compressedDataMinutes);
      }
      data := ByTime(Strip(Filter(compressed, UpTo(upper))) + rawData);
    }

    method GetStats() returns (stats: Stats)
      requires Valid()
      ensures stats.raw == |rawBuffer[rawHead..]| && stats.compressed == |compressedBuffer[compressedHead..]|
      ensures stats.queue == |compressionQueue| && stats.total == stats.raw + stats.compressed
      ensures stats.raw <= |history| && stats.queue < ChunkSize()
      ensures stats.compressed <= |Chunks(history, if compressionRatio < 1 then 1 else compressionRatio)|
      ensures ChunkSize() == if compressionRatio < 1 then 1 else compressionRatio
      ensures |rawBuffer| <= Larger(512, stats.raw) + stats.raw
      ensures |compressedBuffer| <= Larger(256, stats.compressed) + stats.compressed
    {
      var raw, compressed := |rawBuffer| - rawHead, |compressedBuffer| - compressedHead;
      stats := Stats(raw, compressed, |compressionQueue|, raw + compressed);
    }

    method Clear()
      modifies this
      ensures Valid() && history == [] && clock == old(clock)
    {
      hide Follows, Chunks, Tail, Ms;
      rawBuffer, rawHead := [], 0;
      compressedBuffer, compressedHead := [], 0;
      compressionQueue := [];
      history := [];
      NothingMade(ChunkSize());
      NothingFollows(Time, clock - Ms(rawDataMinutes), 512);
      NothingFollows(CompressedTime, clock - Ms(compressedDataMinutes), 256);
    }
  }

  lemma MsIs(minutes: real)
    ensures Ms(minutes) == minutes * 60000.0
  {
  }

  lemma ChunksSortedIf(h: seq<Point>, n: nat)
    requires n > 0
    ensures Sorted(h, Time) ==> Sorted(Chunks(h, n), CompressedTime)
  {
    if Sorted(h, Time) {
      ChunksAreSorted(h, n);
    }
  }

  /** A buffer whose head has just been advanced is the filter of the list, on ordered data and while
    * the clock does not run backwards. */
  lemma LiveIsFilter<T(!new)>(list: seq<T>, time: T -> real, buffer: seq<T>, head: nat,
                              clock: real, now: real, span: real, slack: nat)
    requires Follows(list, time, buffer, head, Max(clock, now) - span, slack)
    requires head < |buffer| ==> time(buffer[head]) > now - span
    ensures head <= |buffer|
    ensures Sorted(list, time) && clock <= now ==> buffer[head..] == Filter(list, After(time, now - span))
  {
    if Sorted(list, time) && clock <= now {
      LiveSuffices(list, time, buffer, head, now - span, head, now - span);
    }
  }

  lemma NothingMade(n: nat)
    requires n > 0
    ensures Chunks([], n) == [] && Tail([], n) == []
  {
  }

  lemma NothingFollows<T>(time: T -> real, expired: real, slack: nat)
    ensures Follows([], time, [], 0, expired, slack)
  {
  }

  function Max(a: real, b: real): real { if a < b then b else a }
  function Larger(a: nat, b: nat): nat { if a < b then b else a }

  function UpTo(upper: real): Compressed -> bool {
    (c: Compressed) => c.timestamp <= upper
  }

  function Strip(cs: seq<Compressed>): seq<Point> {
    seq(|cs|, i requires 0 <= i < |cs| => Point(cs[i].up, cs[i].down, cs[i].timestamp))
  }

  lemma StripShows(cs: seq<Compressed>, p: Point)
    ensures p in Strip(cs) <==>
              exists c :: c in cs && c.up == p.up && c.down == p.down && c.timestamp == p.timestamp
    ensures |Strip(cs)| == |cs|
  {
    if p in Strip(cs) {
      var k :| 0 <= k < |cs| && Strip(cs)[k] == p;
      assert cs[k] in cs;
    }
    forall c | c in cs && c.up == p.up && c.down == p.down && c.timestamp == p.timestamp
      ensures p in Strip(cs)
    {
      var k :| 0 <= k < |cs| && cs[k] == c;
      assert Strip(cs)[k] == p;
    }
  }

  /** What a long query shows: the averages that are not later than `upper`, with both their values and
    * their time, and the live points, in the order of time. */
  lemma LongAnswerShows(older: seq<Compressed>, upper: real, live: seq<Point>, p: Point)
    ensures var data := ByTime(Strip(Filter(older, UpTo(upper))) + live);
            && |data| == |Filter(older, UpTo(upper))| + |live|
            && (p in data <==>
                  || p in live
                  || exists c :: c in older && c.timestamp <= upper
                                 && c.up == p.up && c.down == p.down && c.timestamp == p.timestamp)
            && (forall i, j :: 0 <= i <= j < |data| ==> data[i].timestamp <= data[j].timestamp)
  {
    hide Strip, ByTime, Filter;
    var all := Strip(Filter(older, UpTo(upper))) + live;
    var data := ByTime(all);
    ByTimeSorts(all);
    StripShows(Filter(older, UpTo(upper)), p);
    assert |multiset(data)| == |multiset(all)|;
    assert p in data <==> p in multiset(all);
    forall i, j | 0 <= i <= j < |data|
      ensures data[i].timestamp <= data[j].timestamp
    {
      assert Time(data[i]) <= Time(data[j]);
    }
  }

  /** The buffer is the end of the list, and everything before its head has expired. */
  ghost predicate Covers<T>(list: seq<T>, time: T -> real, buffer: seq<T>, head: nat, expired: real) {
    && head <= |buffer| <= |list|
    && list[|list| - |buffer|..] == buffer
    && (forall k :: 0 <= k < |list| - |buffer| + head ==> time(list[k]) <= expired)
  }

  /** In addition its dead prefix is no longer than the slack or its live part. */
  ghost predicate Follows<T>(list: seq<T>, time: T -> real, buffer: seq<T>, head: nat, expired: real, slack: nat) {
    Covers(list, time, buffer, head, expired) && head <= Larger(slack, |buffer| - head)
  }

  lemma CoversMore<T>(list: seq<T>, x: T, time: T -> real, buffer: seq<T>, head: nat, expired: real)
    requires Covers(list, time, buffer, head, expired)
    ensures Covers(list + [x], time, buffer + [x], head, expired)
  {
  }

  lemma FollowsLater<T>(list: seq<T>, time: T -> real, buffer: seq<T>, head: nat,
                        expired: real, later: real, slack: nat)
    requires Follows(list, time, buffer, head, expired, slack) && expired <= later
    ensures Follows(list, time, buffer, head, later, slack)
  {
  }

  /** Skipping the expired part of an ordered live part is filtering it. */
  lemma LiveFilters<T(!new)>(buffer: seq<T>, time: T -> real, head: nat, start: nat, cutoff: real)
    requires head <= start <= |buffer| && Sorted(buffer, time)
    requires forall k :: head <= k < start ==> time(buffer[k]) <= cutoff
    requires start < |buffer| ==> time(buffer[start]) > cutoff
    ensures Filter(buffer[head..], After(time, cutoff)) == buffer[start..]
  {
    SkippingFilters(buffer[head..], start - head, time, cutoff);
  }

  lemma SortedEnd<T(!new)>(list: seq<T>, buffer: seq<T>, time: T -> real)
    requires Sorted(list, time) && |buffer| <= |list| && list[|list| - |buffer|..] == buffer
    ensures Sorted(buffer, time)
  {
    assert forall i :: 0 <= i < |buffer| ==> buffer[i] == list[|list| - |buffer| + i];
  }

  /** What has been dropped is older than any cutoff that the buffer is asked for. */
  lemma LiveSuffices<T(!new)>(list: seq<T>, time: T -> real, buffer: seq<T>, head: nat, expired: real,
                              start: nat, cutoff: real)
    requires Sorted(list, time) && Covers(list, time, buffer, head, expired) && expired <= cutoff
    requires head <= start <= |buffer|
    requires forall k :: head <= k < start ==> time(buffer[k]) <= cutoff
    requires start < |buffer| ==> time(buffer[start]) > cutoff
    ensures Filter(list, After(time, cutoff)) == buffer[start..]
  {
    var d := |list| - |buffer| + head;
    assert list[d..] == buffer[head..];
    SortedEnd(list, buffer, time);
    DroppingExpired(list, d, time, cutoff);
    LiveFilters(buffer, time, head, start, cutoff);
  }

  lemma Scale(a: real, b: real)
    requires a <= b
    ensures Ms(a) <= Ms(b)
  {
  }

  method SkipExpired<T>(buffer: seq<T>, time: T -> real, head: nat, cutoff: real) returns (start: nat)
    requires head <= |buffer|
    ensures head <= start <= |buffer|
    ensures forall k :: head <= k < start ==> time(buffer[k]) <= cutoff
    ensures start < |buffer| ==> time(buffer[start]) > cutoff
  {
    start := head;
    while start < |buffer| && time(buffer[start]) <= cutoff
      invariant head <= start <= |buffer|
      invariant forall k :: head <= k < start ==> time(buffer[k]) <= cutoff
    {
      start := start + 1;
    }
  }

  /** Advances the head past what has expired and compacts a buffer that is mostly dead. */
  method Trim<T>(ghost list: seq<T>, time: T -> real, buffer: seq<T>, head: nat,
                 ghost expired: real, cutoff: real, slack: nat)
    returns (buffer': seq<T>, head': nat)
    requires Covers(list, time, buffer, head, expired)
    ensures Follows(list, time, buffer', head', Max(expired, cutoff), slack)
    ensures head' < |buffer'| ==> time(buffer'[head']) > cutoff
  {
    buffer' := buffer;
    head' := SkipExpired(buffer, time, head, cutoff);
    ghost var dead := |list| - |buffer|;
    forall k | 0 <= k < dead + head'
      ensures time(list[k]) <= Max(expired, cutoff)
    {
      if dead + head <= k {
        assert list[k] == buffer[k - dead];
      }
    }
    if head' > slack && 2 * head' > |buffer| {
      buffer' := buffer[head'..];
      head' := 0;
    }
  }
}
