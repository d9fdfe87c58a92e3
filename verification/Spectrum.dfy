/** Half-open frequency ranges in Hz, range subtraction, and the two 10 MHz channelisers
    (services/spectrum_inquiry_service.py and services/dpa_service.py). */
module Spectrum {
  import opened Wrappers

  const CBRS_LOW_HZ: int := 3_550_000_000
  const CBRS_HIGH_HZ: int := 3_700_000_000
  const CHANNEL_HZ: int := 10_000_000
  const FSS_EXCLUSION_LOW_HZ: int := 3_650_000_000

  datatype Range = Range(low: int, high: int)

  function Max(a: int, b: int): int { if a < b then b else a }

  function Min(a: int, b: int): int { if a < b then a else b }

  predicate Overlaps(a: Range, b: Range) {
    a.low < b.high && a.high > b.low
  }

  predicate In(x: int, r: Range) {
    r.low <= x < r.high
  }

  ghost predicate Covers(s: seq<Range>, x: int) {
    exists i :: 0 <= i < |s| && In(x, s[i])
  }

  ghost predicate Proper(s: seq<Range>) {
    forall i :: 0 <= i < |s| ==> s[i].low < s[i].high
  }

  ghost predicate Apart(a: Range, b: Range) {
    a.high <= b.low || b.high <= a.low
  }

  /** No two entries share a frequency. */
  ghost predicate PairwiseApart(s: seq<Range>) {
    forall i, j :: 0 <= i < j < |s| ==> Apart(s[i], s[j])
  }

  /** On ordered ranges the source's overlap test is exactly "some frequency lies in both". */
  lemma OverlapIsSharedFrequency(a: Range, b: Range)
    requires a.low < a.high && b.low < b.high
    ensures Overlaps(a, b) <==> exists x :: In(x, a) && In(x, b)
    ensures Overlaps(a, b) <==> !Apart(a, b)
  {
    if Overlaps(a, b) {
      assert In(Max(a.low, b.low), a) && In(Max(a.low, b.low), b);
    }
  }

  // ------------------------------------------------------------ subtraction

  /** What is left of one segment: at most a head below and a tail above the exclusion. */
  function Remainder(seg: Range, ex: Range): (r: seq<Range>) {
    if !Overlaps(seg, ex) then [seg]
    else
      (if seg.low < ex.low then [Range(seg.low, Min(seg.high, ex.low))] else []) +
      (if seg.high > ex.high then [Range(Max(seg.low, ex.high), seg.high)] else [])
  }

  function Remainders(segments: seq<Range>, ex: Range): (r: seq<Range>) {
    if segments == [] then []
    else Remainders(segments[..|segments| - 1], ex) + Remainder(segments[|segments| - 1], ex)
  }

  function DropEmpty(segments: seq<Range>): (r: seq<Range>) {
    if segments == [] then []
    else
      var last := segments[|segments| - 1];
      DropEmpty(segments[..|segments| - 1]) + if last.high > last.low then [last] else []
  }

  function Subtracted(segments: seq<Range>, ex: Range): (r: seq<Range>) {
    DropEmpty(Remainders(segments, ex))
  }

  /** What is left of one segment: all of it, the part below the exclusion, or the part above. */
  predicate IsPiece(p: Range, seg: Range, ex: Range) {
    && p.low < p.high
    && (if seg.low < ex.high && ex.low < seg.high
        then (seg.low < ex.low && p.low == seg.low && p.high == if seg.high < ex.low then seg.high else ex.low)
             || (ex.high < seg.high && p.high == seg.high && p.low == if seg.low < ex.high then ex.high else seg.low)
        else p == seg)
  }

  /** The result consists of all such pieces of all segments. */
  ghost predicate PiecesOf(r: seq<Range>, segments: seq<Range>, ex: Range) {
    forall p :: p in r <==> exists i :: 0 <= i < |segments| && IsPiece(p, segments[i], ex)
  }

  lemma {:induction false} DropEmptyMembers(segments: seq<Range>, p: Range)
    ensures p in DropEmpty(segments) <==> p in segments && p.low < p.high
  {
    if segments != [] {
      DropEmptyMembers(segments[..|segments| - 1], p);
      assert segments == segments[..|segments| - 1] + [segments[|segments| - 1]];
    }
  }

  lemma {:induction false} RemaindersMembers(segments: seq<Range>, ex: Range, p: Range)
    requires p.low < p.high
    ensures p in Remainders(segments, ex) <==> exists i :: 0 <= i < |segments| && IsPiece(p, segments[i], ex)
  {
    if segments != [] {
      var n := |segments| - 1;
      RemaindersMembers(segments[..n], ex, p);
      assert p in Remainder(segments[n], ex) <==> IsPiece(p, segments[n], ex);
    }
  }

  lemma SubtractedPieces(segments: seq<Range>, ex: Range)
    ensures PiecesOf(Subtracted(segments, ex), segments, ex)
  {
    forall p ensures p in Subtracted(segments, ex) <==> exists i :: 0 <= i < |segments| && IsPiece(p, segments[i], ex) {
      DropEmptyMembers(Remainders(segments, ex), p);
      if p.low < p.high {
        RemaindersMembers(segments, ex, p);
      }
    }
  }

  method SubtractRange(segments: seq<Range>, ex: Range) returns (r: seq<Range>)
    ensures r == Subtracted(segments, ex)
    ensures PiecesOf(r, segments, ex)
  {
    var result: seq<Range> := [];
    for i := 0 to |segments|
      invariant result == Remainders(segments[..i], ex)
    {
      var seg := segments[i];
      assert segments[..i + 1][..i] == segments[..i];
      if !Overlaps(seg, ex) {
        result := result + [seg];
      } else {
        ghost var before := result;
        if seg.low < ex.low {
          result := result + [Range(seg.low, Min(seg.high, ex.low))];
        }
        if seg.high > ex.high {
          result := result + [Range(Max(seg.low, ex.high), seg.high)];
        }
        assert result == before + Remainder(seg, ex);
      }
    }
    assert segments[..|segments|] == segments;
    r := [];
    for i := 0 to |result|
      invariant r == DropEmpty(result[..i])
    {
      assert result[..i + 1][..i] == result[..i];
      if result[i].high > result[i].low {
        r := r + [result[i]];
      }
    }
    assert result[..|result|] == result;
    SubtractedPieces(segments, ex);
  }

  lemma CoversConcat(a: seq<Range>, b: seq<Range>, x: int)
    ensures Covers(a + b, x) <==> Covers(a, x) || Covers(b, x)
  {
    if Covers(a, x) {
      var i :| 0 <= i < |a| && In(x, a[i]);
      assert In(x, (a + b)[i]);
    }
    if Covers(b, x) {
      var i :| 0 <= i < |b| && In(x, b[i]);
      assert In(x, (a + b)[|a| + i]);
    }
  }

  lemma CoversOne(r: Range, x: int)
    ensures Covers([r], x) <==> In(x, r)
  {
    if In(x, r) {
      assert In(x, [r][0]);
    }
  }

  lemma RemainderCovers(seg: Range, ex: Range, x: int)
    ensures Covers(Remainder(seg, ex), x) <==> In(x, seg) && !In(x, ex)
  {
    var head := Range(seg.low, Min(seg.high, ex.low));
    var tail := Range(Max(seg.low, ex.high), seg.high);
    CoversOne(seg, x);
    CoversOne(head, x);
    CoversOne(tail, x);
    if Overlaps(seg, ex) {
      CoversConcat(if seg.low < ex.low then [head] else [], if seg.high > ex.high then [tail] else [], x);
    }
  }

  lemma {:induction false} RemaindersCover(segments: seq<Range>, ex: Range, x: int)
    ensures Covers(Remainders(segments, ex), x) <==> Covers(segments, x) && !In(x, ex)
  {
    if segments != [] {
      var n := |segments| - 1;
      RemaindersCover(segments[..n], ex, x);
      RemainderCovers(segments[n], ex, x);
      CoversConcat(Remainders(segments[..n], ex), Remainder(segments[n], ex), x);
      CoversConcat(segments[..n], [segments[n]], x);
      CoversOne(segments[n], x);
      assert segments == segments[..n] + [segments[n]];
    }
  }

  lemma {:induction false} DropEmptyCovers(segments: seq<Range>, x: int)
    ensures Covers(DropEmpty(segments), x) <==> Covers(segments, x)
    ensures Proper(DropEmpty(segments))
  {
    if segments != [] {
      var n := |segments| - 1;
      DropEmptyCovers(segments[..n], x);
      CoversConcat(segments[..n], [segments[n]], x);
      CoversConcat(DropEmpty(segments[..n]), [segments[n]], x);
      CoversOne(segments[n], x);
      assert segments == segments[..n] + [segments[n]];
      if segments[n].high > segments[n].low {
        assert DropEmpty(segments) == DropEmpty(segments[..n]) + [segments[n]];
      } else {
        assert DropEmpty(segments) == DropEmpty(segments[..n]);
      }
    }
  }

  /** Subtraction removes exactly the excluded frequencies, even for an inverted exclusion,
      and leaves only nonempty segments. */
  lemma SubtractedExact(segments: seq<Range>, ex: Range, x: int)
    ensures Covers(Subtracted(segments, ex), x) <==> Covers(segments, x) && !In(x, ex)
    ensures Proper(Subtracted(segments, ex))
  {
    RemaindersCover(segments, ex, x);
    DropEmptyCovers(Remainders(segments, ex), x);
  }

  lemma {:induction false} RemaindersInside(segments: seq<Range>, ex: Range, k: nat)
    requires k < |Remainders(segments, ex)|
    ensures exists i :: 0 <= i < |segments|
                     && segments[i].low <= Remainders(segments, ex)[k].low
                     && Remainders(segments, ex)[k].high <= segments[i].high
  {
    var n := |segments| - 1;
    var head := Remainders(segments[..n], ex);
    if k < |head| {
      RemaindersInside(segments[..n], ex, k);
      var i :| 0 <= i < n && segments[..n][i].low <= head[k].low && head[k].high <= segments[..n][i].high;
      assert segments[i] == segments[..n][i];
    } else {
      assert Remainders(segments, ex)[k] == Remainder(segments[n], ex)[k - |head|];
    }
  }

  lemma {:induction false} RemaindersApart(segments: seq<Range>, ex: Range)
    requires ex.low <= ex.high && PairwiseApart(segments)
    ensures PairwiseApart(Remainders(segments, ex))
  {
    if segments != [] {
      var n := |segments| - 1;
      var head, tail := Remainders(segments[..n], ex), Remainder(segments[n], ex);
      RemaindersApart(segments[..n], ex);
      forall i, j | 0 <= i < j < |head + tail|
        ensures Apart((head + tail)[i], (head + tail)[j])
      {
        if i < |head| && |head| <= j {
          RemaindersInside(segments[..n], ex, i);
          var m :| 0 <= m < n && segments[..n][m].low <= head[i].low && head[i].high <= segments[..n][m].high;
          assert Apart(segments[m], segments[n]);
        }
      }
    }
  }

  lemma {:induction false} DropEmptyApart(segments: seq<Range>)
    requires PairwiseApart(segments)
    ensures PairwiseApart(DropEmpty(segments))
    ensures forall k :: 0 <= k < |DropEmpty(segments)| ==> DropEmpty(segments)[k] in segments
  {
    if segments != [] {
      DropEmptyApart(segments[..|segments| - 1]);
    }
  }

  /** An ordered exclusion never makes two disjoint segments meet. */
  lemma SubtractedApart(segments: seq<Range>, ex: Range)
    requires ex.low <= ex.high && PairwiseApart(segments)
    ensures PairwiseApart(Subtracted(segments, ex))
  {
    RemaindersApart(segments, ex);
    DropEmptyApart(Remainders(segments, ex));
  }

  /** The exclusion is given upside down and lies inside some segment. */
  predicate Doubles(segments: seq<Range>, ex: Range) {
    ex.high < ex.low && exists i :: 0 <= i < |segments| && Overlaps(segments[i], ex)
  }

  lemma {:induction false} DropEmptyJoin(a: seq<Range>, b: seq<Range>)
    ensures DropEmpty(a + b) == DropEmpty(a) + DropEmpty(b)
  {
    if b == [] {
      assert a + b == a;
    } else {
      assert (a + b)[..|a + b| - 1] == a + b[..|b| - 1];
      DropEmptyJoin(a, b[..|b| - 1]);
    }
  }

  /** Subtraction handles segment by segment. */
  lemma SubtractedLast(front: seq<Range>, seg: Range, ex: Range)
    ensures Subtracted(front + [seg], ex) == Subtracted(front, ex) + DropEmpty(Remainder(seg, ex))
  {
    assert (front + [seg])[..|front|] == front;
    DropEmptyJoin(Remainders(front, ex), Remainder(seg, ex));
  }

  lemma DropEmptyTwo(a: Range, b: Range)
    requires a.low < a.high && b.low < b.high
    ensures DropEmpty([a, b]) == [a, b]
  {
    assert [a, b][..1] == [a] && [a][..0] == [];
    assert DropEmpty([a]) == DropEmpty([a][..0]) + [a];
  }

  /** The head and the tail of a segment around an inverted exclusion share what lies between its ends. */
  lemma InvertedSplit(seg: Range, ex: Range)
    requires ex.high < ex.low && Overlaps(seg, ex)
    ensures DropEmpty(Remainder(seg, ex)) == [Range(seg.low, ex.low), Range(ex.high, seg.high)]
    ensures !Apart(Range(seg.low, ex.low), Range(ex.high, seg.high))
  {
    DropEmptyTwo(Range(seg.low, ex.low), Range(ex.high, seg.high));
  }

  lemma MeetStays(a: seq<Range>, b: seq<Range>)
    requires !PairwiseApart(a) || !PairwiseApart(b)
    ensures !PairwiseApart(a + b)
  {
    if !PairwiseApart(a) {
      var i, j :| 0 <= i < j < |a| && !Apart(a[i], a[j]);
      assert !Apart((a + b)[i], (a + b)[j]);
    } else {
      var i, j :| 0 <= i < j < |b| && !Apart(b[i], b[j]);
      assert (a + b)[|a| + i] == b[i] && (a + b)[|a| + j] == b[j];
    }
  }

  lemma {:induction false} InvertedMeets(segments: seq<Range>, ex: Range, i: nat)
    requires ex.high < ex.low && i < |segments| && Overlaps(segments[i], ex)
    ensures !PairwiseApart(Subtracted(segments, ex))
  {
    var front, seg := segments[..|segments| - 1], segments[|segments| - 1];
    assert segments == front + [seg];
    SubtractedLast(front, seg, ex);
    if i < |front| {
      InvertedMeets(front, ex, i);
    } else {
      InvertedSplit(seg, ex);
      var two := DropEmpty(Remainder(seg, ex));
      assert !Apart(two[0], two[1]);
    }
    MeetStays(Subtracted(front, ex), DropEmpty(Remainder(seg, ex)));
  }

  lemma {:induction false} UntouchedStays(segments: seq<Range>, ex: Range)
    requires Proper(segments) && forall i :: 0 <= i < |segments| ==> !Overlaps(segments[i], ex)
    ensures Subtracted(segments, ex) == segments
  {
    if segments != [] {
      var front, seg := segments[..|segments| - 1], segments[|segments| - 1];
      assert segments == front + [seg];
      UntouchedStays(front, ex);
      SubtractedLast(front, seg, ex);
      assert [seg][..0] == [];
      assert DropEmpty([seg]) == DropEmpty([seg][..0]) + [seg];
    }
  }

  /** Disjoint segments stay disjoint exactly unless the exclusion is upside down and meets one of
      them; then the frequencies between its ends are left twice. */
  lemma SubtractedApartExactly(segments: seq<Range>, ex: Range)
    requires Proper(segments) && PairwiseApart(segments)
    ensures PairwiseApart(Subtracted(segments, ex)) <==> !Doubles(segments, ex)
  {
    if ex.low <= ex.high {
      SubtractedApart(segments, ex);
    } else if Doubles(segments, ex) {
      var i :| 0 <= i < |segments| && Overlaps(segments[i], ex);
      InvertedMeets(segments, ex, i);
    } else {
      UntouchedStays(segments, ex);
    }
  }

  // ---------------------------------------------------------- channelisation

  predicate OnGrid(x: int, step: int)
    requires step > 0
  {
    x % step == 0
  }

  /** The first grid line strictly above x. */
  function NextLine(x: int, step: int): (y: int)
    requires step > 0
    ensures x < y <= x + step && OnGrid(y, step)
  {
    MultiplesAreLines(x / step + 1, step);
    x - x % step + step
  }

  lemma LessFromProducts(a: int, b: int, step: int)
    requires step > 0 && a * step < b * step
    ensures a < b
  {
    if b <= a {
      ProductsOrdered(b, a, step);
    }
  }

  lemma ProductsOrdered(a: int, b: int, step: int)
    requires step > 0 && a <= b
    ensures a * step <= b * step
  {
    assert b * step - a * step == (b - a) * step;
  }

  lemma MultiplesAreLines(k: int, step: int)
    requires step > 0
    ensures OnGrid(k * step, step)
  {
    var x := k * step;
    var q := x / step;
    assert x == q * step + x % step;
    if x % step != 0 {
      LessFromProducts(q, k, step);
      ProductsOrdered(q + 1, k, step);
    }
  }

  /** [low, high) cut at every grid line inside it. */
  function GridCut(low: int, high: int, step: int): (r: seq<Range>)
    requires step > 0
    decreases high - low
  {
    if high <= low then []
    else
      var cut := Min(NextLine(low, step), high);
      [Range(low, cut)] + GridCut(cut, high, step)
  }

  /** Reference definition: a contiguous cover of [low, high) by nonempty channels whose inner
      borders are grid lines and which contain no grid line inside. */
  ghost predicate IsGridCut(chs: seq<Range>, low: int, high: int, step: int)
    requires step > 0
  {
    && |chs| > 0
    && chs[0].low == low
    && chs[|chs| - 1].high == high
    && Proper(chs)
    && (forall i :: 0 <= i < |chs| - 1 ==> chs[i].high == chs[i + 1].low && OnGrid(chs[i].high, step))
    && (forall i, y :: 0 <= i < |chs| && chs[i].low < y < chs[i].high ==> !OnGrid(y, step))
  }

  lemma NoLineBefore(x: int, y: int, step: int)
    requires step > 0 && x < y < NextLine(x, step)
    ensures !OnGrid(y, step)
  {
    assert x - x % step == (x / step) * step;
    if OnGrid(y, step) {
      assert y == (y / step) * step;
      LessFromProducts(x / step, y / step, step);
      ProductsOrdered(x / step + 1, y / step, step);
    }
  }

  /** The spec function meets the reference definition, for every nonempty band. */
  lemma {:induction false} GridCutIsGridCut(low: int, high: int, step: int)
    requires step > 0 && low < high
    ensures IsGridCut(GridCut(low, high, step), low, high, step)
    decreases high - low
  {
    var cut := Min(NextLine(low, step), high);
    var rest := GridCut(cut, high, step);
    forall y | low < y < cut ensures !OnGrid(y, step) { NoLineBefore(low, y, step); }
    if cut < high {
      GridCutIsGridCut(cut, high, step);
      var chs := GridCut(low, high, step);
      assert forall i :: 0 < i < |chs| ==> chs[i] == rest[i - 1];
    }
  }

  /** The cover is unique, so any two algorithms that meet the definition agree. */
  lemma {:induction false} GridCutUnique(chs: seq<Range>, low: int, high: int, step: int)
    requires step > 0 && low < high && IsGridCut(chs, low, high, step)
    ensures chs == GridCut(low, high, step)
    decreases |chs|
  {
    FirstCutUnique(chs, low, high, step);
    if |chs| > 1 {
      var c, rest := chs[0].high, chs[1..];
      CoverReaches(chs, 1);
      assert rest[0] == chs[1] && rest[|rest| - 1] == chs[|chs| - 1];
      GridCutUnique(rest, c, high, step);
      assert chs == [Range(low, c)] + rest;
    } else {
      assert chs == [Range(low, high)] + [];
    }
  }

  lemma FirstCutUnique(chs: seq<Range>, low: int, high: int, step: int)
    requires step > 0 && low < high && IsGridCut(chs, low, high, step)
    ensures chs[0] == Range(low, Min(NextLine(low, step), high))
  {
    var line, c := NextLine(low, step), chs[0].high;
    assert OnGrid(line, step);
    CoverReaches(chs, 0);
    if c < line && |chs| > 1 {
      NoLineBefore(low, c, step);
    }
    if |chs| > 1 {
      CoverReaches(chs, 1);
    }
  }

  lemma {:induction false} CoverReaches(chs: seq<Range>, i: nat)
    requires i < |chs| && Proper(chs)
    requires forall i :: 0 <= i < |chs| - 1 ==> chs[i].high == chs[i + 1].low
    ensures chs[i].low < chs[|chs| - 1].high
    decreases |chs| - i
  {
    if i < |chs| - 1 {
      CoverReaches(chs, i + 1);
    }
  }

  /** Every frequency of the band is in the cut and nothing else is. */
  lemma {:induction false} GridCutCovers(low: int, high: int, step: int, x: int)
    requires step > 0
    ensures Covers(GridCut(low, high, step), x) <==> low <= x < high
    decreases high - low
  {
    if low < high {
      var cut := Min(NextLine(low, step), high);
      GridCutCovers(cut, high, step, x);
      CoversConcat([Range(low, cut)], GridCut(cut, high, step), x);
      CoversOne(Range(low, cut), x);
    }
  }

  lemma {:induction false} GridCutInside(low: int, high: int, step: int)
    requires step > 0
    ensures Proper(GridCut(low, high, step))
    ensures PairwiseApart(GridCut(low, high, step))
    ensures forall r :: r in GridCut(low, high, step) ==> low <= r.low && r.high <= high
    decreases high - low
  {
    if low < high {
      var cut := Min(NextLine(low, step), high);
      GridCutInside(cut, high, step);
    }
  }

  lemma {:induction false} GridCutAppend(low: int, mid: int, high: int, step: int)
    requires step > 0 && low <= mid <= high && OnGrid(mid, step)
    ensures GridCut(low, high, step) == GridCut(low, mid, step) + GridCut(mid, high, step)
    decreases mid - low
  {
    if low < mid {
      var line := NextLine(low, step);
      if mid < line {
        NoLineBefore(low, mid, step);
      }
      GridCutAppend(line, mid, high, step);
    }
  }

  lemma GridCutOne(low: int, high: int, step: int)
    requires step > 0 && low < high <= NextLine(low, step)
    ensures GridCut(low, high, step) == [Range(low, high)]
  {
    assert GridCut(high, high, step) == [];
  }

  lemma OnGridNext(x: int, step: int)
    requires step > 0 && OnGrid(x, step)
    ensures NextLine(x, step) == x + step
    ensures OnGrid(x + step, step)
  {
  }

  /** services/dpa_service.py: whole 10 MHz slots between a partial head and a partial tail. */
  method Channelize(low: int, high: int, step: int) returns (out: seq<Range>)
    ensures high <= low || step <= 0 ==> out == []
    ensures low < high && step > 0 ==> out == GridCut(low, high, step)
    ensures low < high && step > 0 ==> IsGridCut(out, low, high, step)
  {
    if low < high && step > 0 {
      GridCutIsGridCut(low, high, step);
    }
    if high <= low || step <= 0 {
      return [];
    }
    var start := if low % step != 0 then low - low % step else low;
    if start < low {
      start := start + step;
    }
    assert start == low || start == NextLine(low, step);
    if start >= high {
      GridCutOne(low, high, step);
      return [Range(low, high)];
    }
    out := [];
    if start > low {
      GridCutOne(low, start, step);
      out := [Range(low, start)];
    }
    var cur := start;
    while cur + step <= high
      invariant low <= cur <= high && OnGrid(cur, step)
      invariant out == GridCut(low, cur, step)
    {
      out := out + [Range(cur, cur + step)];
      OnGridNext(cur, step);
      GridCutOne(cur, cur + step, step);
      GridCutAppend(low, cur, cur + step, step);
      cur := cur + step;
    }
    GridCutAppend(low, cur, high, step);
    if cur < high {
      OnGridNext(cur, step);
      GridCutOne(cur, high, step);
      out := out + [Range(cur, high)];
    }
  }

  /** services/spectrum_inquiry_service.py: clip to CBRS, then align up to the grid. */
  method Split10Mhz(low: int, high: int) returns (channels: seq<Range>)
    ensures channels == GridCut(Max(low, CBRS_LOW_HZ), Min(high, CBRS_HIGH_HZ), CHANNEL_HZ)
    ensures var start := if low < 3_550_000_000 then 3_550_000_000 else low;
            var end := if high < 3_700_000_000 then high else 3_700_000_000;
            if start < end then IsGridCut(channels, start, end, 10_000_000) else channels == []
  {
    channels := [];
    var start := Max(low, CBRS_LOW_HZ);
    var end := Min(high, CBRS_HIGH_HZ);
    if end <= start {
      return;
    }
    var aligned := ((start + CHANNEL_HZ - 1) / CHANNEL_HZ) * CHANNEL_HZ;
    if start % CHANNEL_HZ == 0 {
      aligned := start;
    } else if aligned - CHANNEL_HZ >= start && aligned - CHANNEL_HZ >= CBRS_LOW_HZ {
      aligned := aligned - CHANNEL_HZ;
    }
    assert OnGrid(aligned, CHANNEL_HZ);
    if start < aligned {
      var headEnd := Min(aligned, end);
      assert aligned == NextLine(start, CHANNEL_HZ);
      if headEnd > start {
        GridCutOne(start, headEnd, CHANNEL_HZ);
        channels := channels + [Range(start, headEnd)];
      }
    }
    var cur := aligned;
    while cur + CHANNEL_HZ <= end
      invariant start <= cur && OnGrid(cur, CHANNEL_HZ)
      invariant channels == GridCut(start, Min(cur, end), CHANNEL_HZ)
    {
      channels := channels + [Range(cur, cur + CHANNEL_HZ)];
      OnGridNext(cur, CHANNEL_HZ);
      GridCutOne(cur, cur + CHANNEL_HZ, CHANNEL_HZ);
      GridCutAppend(start, cur, cur + CHANNEL_HZ, CHANNEL_HZ);
      cur := cur + CHANNEL_HZ;
    }
    if cur < end {
      OnGridNext(cur, CHANNEL_HZ);
      GridCutOne(cur, end, CHANNEL_HZ);
      GridCutAppend(start, cur, end, CHANNEL_HZ);
      channels := channels + [Range(cur, end)];
    }
    GridCutIsGridCut(start, end, CHANNEL_HZ);
  }

  // ------------------------------------------------------- DPA definitions

  /** A catalogue row: its precomputed channel list (entries may be unreadable) and its band. */
  datatype Definition = Definition(channels: Option<seq<Option<Range>>>, band: Option<Range>)

  ghost function Mapping(band: Range): (d: Definition) {
    var cut := GridCut(band.low, band.high, CHANNEL_HZ);
    Definition(Some(seq(|cut|, i requires 0 <= i < |cut| => Some(cut[i]))), Some(band))
  }

  /** The stored channels decide when there are any, else the channels of the band. */
  ghost predicate Accepts(d: Definition, freq: Range) {
    if d.channels.Some? && d.channels.value != [] then Some(freq) in d.channels.value
    else d.band.Some? && freq in GridCut(d.band.value.low, d.band.value.high, CHANNEL_HZ)
  }

  lemma GridCutExactly(band: Range, freq: Range)
    ensures freq in GridCut(band.low, band.high, CHANNEL_HZ)
            <==> exists cut :: IsGridCut(cut, band.low, band.high, CHANNEL_HZ) && freq in cut
  {
    if band.low < band.high {
      GridCutIsGridCut(band.low, band.high, CHANNEL_HZ);
    }
    forall cut | IsGridCut(cut, band.low, band.high, CHANNEL_HZ) ensures cut == GridCut(band.low, band.high, CHANNEL_HZ) {
      CutIsNonempty(cut, band.low, band.high, CHANNEL_HZ);
      GridCutUnique(cut, band.low, band.high, CHANNEL_HZ);
    }
  }

  lemma CutIsNonempty(cut: seq<Range>, low: int, high: int, step: int)
    requires step > 0 && IsGridCut(cut, low, high, step)
    ensures low < high
  {
    CoverReaches(cut, 0);
  }

  method ChannelInDefinition(d: Definition, freq: Range) returns (ok: bool)
    ensures ok == Accepts(d, freq)
    ensures d.channels.Some? && d.channels.value != [] ==>
              (ok <==> exists i :: 0 <= i < |d.channels.value| && d.channels.value[i] == Some(freq))
    ensures d.channels.None? || d.channels.value == [] ==>
              (ok <==> d.band.Some? && exists cut :: IsGridCut(cut, d.band.value.low, d.band.value.high, 10_000_000) && freq in cut)
  {
    if d.band.Some? {
      GridCutExactly(d.band.value, freq);
    }
    if d.channels.Some? && d.channels.value != [] {
      var chs := d.channels.value;
      for i := 0 to |chs|
        invariant Some(freq) !in chs[..i]
      {
        if chs[i] == Some(freq) {
          return true;
        }
      }
      assert chs[..|chs|] == chs;
      return false;
    }
    if d.band.None? {
      return false;
    }
    var cut := Channelize(d.band.value.low, d.band.value.high, CHANNEL_HZ);
    ok := freq in cut;
  }

  /** A stored row and the same row stripped of its list accept the same channels: the grid cut. */
  lemma StoredAndRecomputedAgree(band: Range, freq: Range)
    ensures Accepts(Mapping(band), freq) <==> freq in GridCut(band.low, band.high, CHANNEL_HZ)
    ensures Accepts(Mapping(band), freq) <==> Accepts(Mapping(band).(channels := None), freq)
  {
    var cut := GridCut(band.low, band.high, CHANNEL_HZ);
    var stored := Mapping(band).channels.value;
    if freq in cut {
      var i :| 0 <= i < |cut| && cut[i] == freq;
      assert stored[i] == Some(freq);
    }
    if Some(freq) in stored {
      var i :| 0 <= i < |stored| && stored[i] == Some(freq);
      assert cut[i] == freq;
    }
  }
}
