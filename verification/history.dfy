/**
 * The per-box history buffer: samples in arrival order, oldest first, bounded by
 * MAX_HISTORY_POINTS. An append that overflows the bound keeps only the newest entries
 * (server.py:72-84).
 */
module History {

  /** 24 hours of readings at a 5-minute cadence. */
  const MAX_HISTORY_POINTS: nat := 288

  function Min(a: int, b: int): int {
    if a < b then a else b
  }

  /**
   * `h[-MAX_HISTORY_POINTS:]` when `h` is over the bound, `h` otherwise: the newest
   * entries of `h`, as many as the bound allows, in their original order.
   */
  function Trim<T>(h: seq<T>): (r: seq<T>)
    ensures |r| == Min(|h|, MAX_HISTORY_POINTS)
    ensures r == h[|h| - |r|..]
  {
    if |h| > MAX_HISTORY_POINTS then h[|h| - MAX_HISTORY_POINTS..] else h
  }

  /**
   * The history after one sample is recorded: appended as the newest entry, then the
   * oldest entry dropped if the bound is exceeded.
   */
  function Record<T>(h: seq<T>, x: T): (r: seq<T>)
    ensures 0 < |r| <= MAX_HISTORY_POINTS
    ensures |r| == Min(|h| + 1, MAX_HISTORY_POINTS)
    ensures r[|r| - 1] == x
    ensures |h| < MAX_HISTORY_POINTS ==> r == h + [x]
    ensures |h| >= MAX_HISTORY_POINTS ==> r == h[|h| + 1 - MAX_HISTORY_POINTS..] + [x]
  {
    var r := Trim(h + [x]);
    assert |h| >= MAX_HISTORY_POINTS ==> (h + [x])[|h| + 1 - MAX_HISTORY_POINTS..] == h[|h| + 1 - MAX_HISTORY_POINTS..] + [x];
    r
  }

  /** Record is the append followed by the slice that keeps the newest MAX_HISTORY_POINTS. */
  lemma AppendThenSlice<T>(h: seq<T>, x: T)
    ensures |h + [x]| > MAX_HISTORY_POINTS ==> Record(h, x) == (h + [x])[|h + [x]| - MAX_HISTORY_POINTS..]
    ensures |h + [x]| <= MAX_HISTORY_POINTS ==> Record(h, x) == h + [x]
  {
  }

  /** The history after the samples `xs` are recorded one after another. */
  function RecordAll<T>(h: seq<T>, xs: seq<T>): (r: seq<T>)
    ensures xs == [] ==> r == h
    ensures xs != [] ==> 0 < |r| <= MAX_HISTORY_POINTS && r[|r| - 1] == xs[|xs| - 1]
    decreases |xs|
  {
    if xs == [] then h
    else
      var rest := xs[1..];
      assert rest != [] ==> rest[|rest| - 1] == xs[|xs| - 1];
      RecordAll(Record(h, xs[0]), rest)
  }

  /** Trimming first and then appending more and trimming again is the same as trimming once. */
  lemma TrimAppendTrim<T>(a: seq<T>, b: seq<T>)
    ensures Trim(Trim(a) + b) == Trim(a + b)
  {
    var ta := Trim(a);
    var k := |a| - |ta|;
    assert ta == a[k..];
    assert ta + b == (a + b)[k..];
    var m := Min(|a + b|, MAX_HISTORY_POINTS);
    assert Min(|ta + b|, MAX_HISTORY_POINTS) == m;
    assert Trim(ta + b) == (ta + b)[|ta + b| - m..];
    assert (a + b)[k..][|ta + b| - m..] == (a + b)[|a + b| - m..];
  }

  /**
   * Recording samples one at a time keeps exactly the newest MAX_HISTORY_POINTS of
   * everything recorded, in arrival order.
   */
  lemma {:induction false} RecordAllKeepsNewest<T>(h: seq<T>, xs: seq<T>)
    requires |h| <= MAX_HISTORY_POINTS
    ensures RecordAll(h, xs) == Trim(h + xs)
    decreases |xs|
  {
    if xs == [] {
      assert h + xs == h[0..];
    } else {
      var x, rest := xs[0], xs[1..];
      assert h + [x] + rest == h + xs;
      calc {
        RecordAll(h, xs);
        RecordAll(Record(h, x), rest);
        { RecordAllKeepsNewest(Record(h, x), rest); }
        Trim(Record(h, x) + rest);
        Trim(Trim(h + [x]) + rest);
        { TrimAppendTrim(h + [x], rest); }
        Trim(h + [x] + rest);
      }
    }
  }

  /** A box with no history holds, after N samples, the last min(N, MAX_HISTORY_POINTS) of them. */
  lemma {:induction false} HistoryAfterN<T>(xs: seq<T>)
    ensures |RecordAll([], xs)| == Min(|xs|, MAX_HISTORY_POINTS)
    ensures RecordAll([], xs) == xs[|xs| - Min(|xs|, MAX_HISTORY_POINTS)..]
  {
    var empty: seq<T> := [];
    RecordAllKeepsNewest(empty, xs);
    assert empty + xs == xs;
    TrimIsSuffix(xs);
  }

  /** Trimming keeps the suffix of length min(|h|, MAX_HISTORY_POINTS). */
  lemma TrimIsSuffix<T>(h: seq<T>)
    ensures Trim(h) == h[|h| - Min(|h|, MAX_HISTORY_POINTS)..]
  {
  }
}
