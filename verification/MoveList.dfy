/** The greedy DPA move list (services/dpa_protection.py), with interference in milliwatts: the
    decibel conversions of the source are monotone and are not part of this model. */
module MoveList {
  import opened Wrappers
  import opened Spectrum

  datatype Contribution = Contribution(grantId: string, mw: real)

  function Clamped(mw: real): (r: real) {
    if mw < 0.0 then 0.0 else mw
  }

  function Aggregate(cs: seq<Contribution>): (sum: real)
    ensures sum >= 0.0
  {
    if cs == [] then 0.0 else Aggregate(cs[..|cs| - 1]) + Clamped(cs[|cs| - 1].mw)
  }

  predicate Within(cs: seq<Contribution>, limit: real) {
    Aggregate(cs) <= limit
  }

  // --------------------------------------------------- the load, milliwatt by milliwatt

  /** The plain sum. */
  function Total(cs: seq<Contribution>): (sum: real) {
    if cs == [] then 0.0 else cs[0].mw + Total(cs[1..])
  }

  /** The contributions that add anything. */
  function Positive(cs: seq<Contribution>): (r: seq<Contribution>)
    ensures forall c :: c in r <==> c in cs && c.mw > 0.0
  {
    if cs == [] then []
    else
      assert cs == [cs[0]] + cs[1..];
      (if cs[0].mw > 0.0 then [cs[0]] else []) + Positive(cs[1..])
  }

  /** The interference of a list is the plain sum of what is positive in it; of one contribution it is
      its own milliwatts, or nothing. */
  lemma {:induction false} AggregateExactly(cs: seq<Contribution>)
    ensures Aggregate(cs) == Total(Positive(cs))
    ensures (forall c :: c in cs ==> c.mw >= 0.0) ==> Aggregate(cs) == Total(cs)
    ensures |cs| == 1 ==> Aggregate(cs) == if cs[0].mw >= 0.0 then cs[0].mw else 0.0
  {
    if cs != [] {
      assert cs == [cs[0]] + cs[1..];
      AggregateSplit([cs[0]], cs[1..]);
      AggregateOne(cs[0]);
      AggregateExactly(cs[1..]);
      PositiveHead(cs);
    }
  }

  lemma PositiveHead(cs: seq<Contribution>)
    requires cs != []
    ensures Total(Positive(cs)) == (if cs[0].mw > 0.0 then cs[0].mw else 0.0) + Total(Positive(cs[1..]))
  {
    assert ([cs[0]] + Positive(cs[1..]))[1..] == Positive(cs[1..]);
    assert [] + Positive(cs[1..]) == Positive(cs[1..]);
  }

  // ---------------------------------------------------------------- sorting

  /** Stable: a new element goes behind its equals. */
  function InsertDown(c: Contribution, s: seq<Contribution>): (r: seq<Contribution>)
    ensures multiset(r) == multiset(s) + multiset{c} && |r| == |s| + 1
  {
    if s == [] then [c]
    else if s[0].mw < c.mw then [c] + s
    else
      assert s == [s[0]] + s[1..];
      [s[0]] + InsertDown(c, s[1..])
  }

  lemma LastApart(cs: seq<Contribution>)
    requires cs != []
    ensures multiset(cs) == multiset(cs[..|cs| - 1]) + multiset{cs[|cs| - 1]}
  {
    assert cs == cs[..|cs| - 1] + [cs[|cs| - 1]];
  }

  /** Strongest first, equals in their old order. */
  function SortDown(cs: seq<Contribution>): (r: seq<Contribution>)
    ensures multiset(r) == multiset(cs) && |r| == |cs|
  {
    if cs == [] then []
    else
      var n := |cs| - 1;
      LastApart(cs);
      InsertDown(cs[n], SortDown(cs[..n]))
  }

  ghost predicate Descending(s: seq<Contribution>) {
    forall i, j :: 0 <= i < j < |s| ==> s[i].mw >= s[j].mw
  }

  lemma {:induction false} InsertDownDescends(c: Contribution, s: seq<Contribution>)
    requires Descending(s)
    ensures Descending(InsertDown(c, s))
  {
    if s != [] && s[0].mw >= c.mw {
      InsertDownDescends(c, s[1..]);
      var r := InsertDown(c, s[1..]);
      forall i | 0 <= i < |r| ensures s[0].mw >= r[i].mw {
        assert r[i] in multiset(r);
        assert r[i] == c || r[i] in s[1..];
      }
    }
  }

  lemma {:induction false} SortDownDescends(cs: seq<Contribution>)
    ensures Descending(SortDown(cs))
  {
    if cs != [] {
      SortDownDescends(cs[..|cs| - 1]);
      InsertDownDescends(cs[|cs| - 1], SortDown(cs[..|cs| - 1]));
    }
  }

  /** The contributions of just this strength, in order. */
  function Alike(cs: seq<Contribution>, mw: real): (r: seq<Contribution>) {
    if cs == [] then [] else (if cs[0].mw == mw then [cs[0]] else []) + Alike(cs[1..], mw)
  }

  /** The strongest come first, and contributions of one strength stay in their order. */
  ghost predicate StrongestFirst(cs: seq<Contribution>, s: seq<Contribution>) {
    Descending(s) && forall mw :: Alike(s, mw) == Alike(cs, mw)
  }

  lemma {:induction false} AlikeJoin(a: seq<Contribution>, b: seq<Contribution>, mw: real)
    ensures Alike(a + b, mw) == Alike(a, mw) + Alike(b, mw)
  {
    if a == [] {
      assert a + b == b;
    } else {
      assert (a + b)[1..] == a[1..] + b;
      AlikeJoin(a[1..], b, mw);
    }
  }

  lemma AlikeHead(c: Contribution, s: seq<Contribution>, mw: real)
    ensures Alike([c] + s, mw) == (if c.mw == mw then [c] else []) + Alike(s, mw)
  {
    assert ([c] + s)[1..] == s;
  }

  lemma {:induction false} NoneAlike(s: seq<Contribution>, mw: real)
    requires forall i :: 0 <= i < |s| ==> s[i].mw < mw
    ensures Alike(s, mw) == []
  {
    if s != [] {
      NoneAlike(s[1..], mw);
    }
  }

  lemma InsertFrontAlike(c: Contribution, s: seq<Contribution>, mw: real)
    requires Descending(s) && (s == [] || s[0].mw < c.mw)
    ensures Alike([c] + s, mw) == Alike(s, mw) + if c.mw == mw then [c] else []
  {
    AlikeHead(c, s, mw);
    if c.mw == mw {
      NoneAlike(s, mw);
    }
  }

  lemma Regroup<T>(a: seq<T>, b: seq<T>, c: seq<T>)
    ensures a + (b + c) == (a + b) + c
  {
  }

  lemma {:induction false} InsertDownAlike(c: Contribution, s: seq<Contribution>, mw: real)
    requires Descending(s)
    ensures Alike(InsertDown(c, s), mw) == Alike(s, mw) + if c.mw == mw then [c] else []
  {
    if s == [] || s[0].mw < c.mw {
      assert [c] + [] == [c];
      InsertFrontAlike(c, s, mw);
    } else {
      InsertDownAlike(c, s[1..], mw);
      AlikeHead(s[0], InsertDown(c, s[1..]), mw);
      Regroup(if s[0].mw == mw then [s[0]] else [], Alike(s[1..], mw), if c.mw == mw then [c] else []);
    }
  }

  lemma {:induction false} SortDownAlike(cs: seq<Contribution>, mw: real)
    ensures Alike(SortDown(cs), mw) == Alike(cs, mw)
  {
    if cs != [] {
      var front, c := cs[..|cs| - 1], cs[|cs| - 1];
      SortDownAlike(front, mw);
      SortDownDescends(front);
      InsertDownAlike(c, SortDown(front), mw);
      AlikeLast(front, c, mw);
      assert front + [c] == cs;
    }
  }

  lemma AlikeLast(front: seq<Contribution>, c: Contribution, mw: real)
    ensures Alike(front + [c], mw) == Alike(front, mw) + if c.mw == mw then [c] else []
  {
    AlikeJoin(front, [c], mw);
    AlikeHead(c, [], mw);
    assert [c] + [] == [c];
  }

  lemma SortDownStrongestFirst(cs: seq<Contribution>)
    ensures StrongestFirst(cs, SortDown(cs))
  {
    SortDownDescends(cs);
    forall mw ensures Alike(SortDown(cs), mw) == Alike(cs, mw) {
      SortDownAlike(cs, mw);
    }
  }

  // ------------------------------------------------------- sums without order

  lemma {:induction false} AggregateSplit(a: seq<Contribution>, b: seq<Contribution>)
    ensures Aggregate(a + b) == Aggregate(a) + Aggregate(b)
  {
    if b == [] {
      assert a + b == a;
    } else {
      AggregateSplit(a, b[..|b| - 1]);
      assert (a + b)[..|a + b| - 1] == a + b[..|b| - 1];
    }
  }

  lemma AggregateOne(c: Contribution)
    ensures Aggregate([c]) == Clamped(c.mw)
  {
    assert [c][..0] == [];
    assert Aggregate([c]) == Aggregate([c][..0]) + Clamped(c.mw);
  }

  lemma RemoveBetween(a: seq<Contribution>, c: Contribution, b: seq<Contribution>)
    ensures Aggregate(a + [c] + b) == Aggregate(a + b) + Clamped(c.mw)
  {
    AggregateSplit(a + [c], b);
    AggregateSplit(a, [c]);
    AggregateSplit(a, b);
    AggregateOne(c);
  }

  lemma RemoveAtMembers(s: seq<Contribution>, i: nat)
    requires i < |s|
    ensures multiset(s[..i] + s[i + 1..]) == multiset(s) - multiset{s[i]}
  {
    assert s == s[..i] + [s[i]] + s[i + 1..];
    assert multiset(s) == multiset(s[..i]) + multiset{s[i]} + multiset(s[i + 1..]);
  }

  lemma {:induction false} AggregateOrderFree(a: seq<Contribution>, b: seq<Contribution>)
    requires multiset(a) == multiset(b)
    ensures Aggregate(a) == Aggregate(b)
    decreases |a|
  {
    if a != [] {
      var n := |a| - 1;
      assert a[n] in multiset(b);
      var i :| 0 <= i < |b| && b[i] == a[n];
      assert b == b[..i] + [b[i]] + b[i + 1..];
      RemoveBetween(b[..i], b[i], b[i + 1..]);
      RemoveAtMembers(b, i);
      LastApart(a);
      AggregateOrderFree(a[..n], b[..i] + b[i + 1..]);
    } else {
      assert |multiset(b)| == 0;
      assert b == [];
    }
  }

  // -------------------------------------------------------------- the greedy

  /** How many of the strongest must go. */
  function Cut(sorted: seq<Contribution>, limit: real): (k: nat)
    ensures k <= |sorted|
    ensures k < |sorted| ==> Within(sorted[k..], limit)
    ensures forall j :: 0 <= j < k ==> !Within(sorted[j..], limit)
  {
    if sorted == [] || Within(sorted, limit) then 0
    else
      var rest := Cut(sorted[1..], limit);
      assert forall j :: 0 < j < 1 + rest ==> sorted[j..] == sorted[1..][j - 1..];
      assert sorted[0..] == sorted;
      assert rest < |sorted[1..]| ==> sorted[1 + rest..] == sorted[1..][rest..];
      1 + rest
  }

  function Ids(cs: seq<Contribution>): (r: seq<string>)
    ensures |r| == |cs| && forall i :: 0 <= i < |r| ==> r[i] == cs[i].grantId
  {
    seq(|cs|, i requires 0 <= i < |cs| => cs[i].grantId)
  }

  /** What the loop removes and what it leaves. */
  function Moved(cs: seq<Contribution>, limit: real): (r: seq<Contribution>) {
    SortDown(cs)[..Cut(SortDown(cs), limit)]
  }

  function Left(cs: seq<Contribution>, limit: real): (r: seq<Contribution>) {
    SortDown(cs)[Cut(SortDown(cs), limit)..]
  }

  lemma IdsStep(sorted: seq<Contribution>, k: nat)
    requires k < |sorted|
    ensures Ids(sorted[..k + 1]) == Ids(sorted[..k]) + [sorted[k].grantId]
    ensures sorted[k + 1..] == sorted[k..][1..]
  {
  }

  lemma CutBracket(sorted: seq<Contribution>, limit: real, k: nat)
    requires k < |sorted| && k <= Cut(sorted, limit)
    ensures Within(sorted[k..], limit) <==> k == Cut(sorted, limit)
  {
  }

  /** The list moves the first `k` of the strongest: as many as it takes until the positive milliwatts
      of the rest sum up to no more than the limit, and no more. */
  ghost predicate MovesInFields(cs: seq<Contribution>, limit: real, moved: seq<string>) {
    exists s: seq<Contribution> :: StrongestFirst(cs, s) && |moved| <= |s| == |cs|
      && (forall i :: 0 <= i < |moved| ==> moved[i] == s[i].grantId && Total(Positive(s[i..])) > limit)
      && (|moved| < |s| ==> Total(Positive(s[|moved|..])) <= limit)
  }

  lemma CutInFields(s: seq<Contribution>, limit: real, i: nat)
    requires i <= |s|
    ensures i < Cut(s, limit) ==> Total(Positive(s[i..])) > limit
    ensures i == Cut(s, limit) < |s| ==> Total(Positive(s[i..])) <= limit
  {
    AggregateExactly(s[i..]);
  }

  lemma MovedInFields(cs: seq<Contribution>, limit: real)
    ensures MovesInFields(cs, limit, Ids(Moved(cs, limit)))
  {
    var s := SortDown(cs);
    var moved := Ids(s[..Cut(s, limit)]);
    SortDownStrongestFirst(cs);
    forall i | 0 <= i < |moved| ensures moved[i] == s[i].grantId && Total(Positive(s[i..])) > limit {
      CutInFields(s, limit, i);
    }
    CutInFields(s, limit, |moved|);
  }

  method BuildMovelist(cs: seq<Contribution>, limit: real) returns (moved: seq<string>)
    ensures moved == Ids(Moved(cs, limit))
    ensures MovesInFields(cs, limit, moved)
  {
    ghost var sorted := SortDown(cs);
    ghost var k := 0;
    var remaining := SortDown(cs);
    moved := [];
    while remaining != []
      invariant k <= Cut(sorted, limit) && remaining == sorted[k..]
      invariant moved == Ids(sorted[..k])
    {
      CutBracket(sorted, limit, k);
      if Aggregate(remaining) <= limit {
        break;
      }
      IdsStep(sorted, k);
      moved := moved + [remaining[0].grantId];
      remaining := remaining[1..];
      k := k + 1;
    }
    MovedInFields(cs, limit);
  }

  // ---------------------------------------------------------------- optimality

  /** Any k contributions kept from a descending list weigh at least as much as its k last ones. */
  lemma {:induction false} LightestAreLast(s: seq<Contribution>, kept: seq<Contribution>)
    requires Descending(s) && multiset(kept) <= multiset(s)
    ensures |kept| <= |s| && Aggregate(kept) >= Aggregate(s[|s| - |kept|..])
    decreases |s|, 1
  {
    SmallerBag(kept, s);
    if kept == [] {
      assert s[|s| - |kept|..] == [];
    } else if s[|s| - 1] in kept {
      LastKept(s, kept);
    } else {
      LastLeftOut(s, kept);
    }
  }

  lemma {:induction false} LastLeftOut(s: seq<Contribution>, kept: seq<Contribution>)
    requires Descending(s) && multiset(kept) <= multiset(s) && kept != []
    requires s != [] && s[|s| - 1] !in kept
    ensures |kept| <= |s| && Aggregate(kept) >= Aggregate(s[|s| - |kept|..])
    decreases |s|, 0
  {
    var n := |s| - 1;
    SubsetWithout(kept, s);
    LightestAreLast(s[..n], kept);
    ShiftRight(s, |kept|);
  }

  lemma {:induction false} LastKept(s: seq<Contribution>, kept: seq<Contribution>)
    requires Descending(s) && multiset(kept) <= multiset(s) && |kept| <= |s|
    requires s != [] && s[|s| - 1] in kept
    ensures Aggregate(kept) >= Aggregate(s[|s| - |kept|..])
    decreases |s|, 0
  {
    var n := |s| - 1;
    var i :| 0 <= i < |kept| && kept[i] == s[n];
    var rest := kept[..i] + kept[i + 1..];
    assert kept == kept[..i] + [kept[i]] + kept[i + 1..];
    RemoveBetween(kept[..i], kept[i], kept[i + 1..]);
    BagsShrink(s, kept, i);
    assert Descending(s[..n]);
    LightestAreLast(s[..n], rest);
    LastOfTail(s, |kept|);
  }

  lemma BagsShrink(s: seq<Contribution>, kept: seq<Contribution>, i: nat)
    requires s != [] && i < |kept| && kept[i] == s[|s| - 1] && multiset(kept) <= multiset(s)
    ensures multiset(kept[..i] + kept[i + 1..]) <= multiset(s[..|s| - 1])
  {
    RemoveAtMembers(kept, i);
    LastApart(s);
  }

  lemma LastOfTail(s: seq<Contribution>, k: nat)
    requires 0 < k <= |s|
    ensures Aggregate(s[|s| - k..]) == Aggregate(s[..|s| - 1][|s| - k..]) + Clamped(s[|s| - 1].mw)
  {
    var tail := s[|s| - k..];
    assert tail[..|tail| - 1] == s[..|s| - 1][|s| - k..];
  }

  lemma SmallerBag(kept: seq<Contribution>, s: seq<Contribution>)
    requires multiset(kept) <= multiset(s)
    ensures |kept| <= |s|
  {
    assert multiset(s) == multiset(kept) + (multiset(s) - multiset(kept));
    assert |multiset(s)| == |multiset(kept)| + |multiset(s) - multiset(kept)|;
  }

  lemma SubsetWithout(kept: seq<Contribution>, s: seq<Contribution>)
    requires s != [] && multiset(kept) <= multiset(s) && s[|s| - 1] !in kept
    ensures multiset(kept) <= multiset(s[..|s| - 1])
    ensures |kept| <= |s| - 1
  {
    LastApart(s);
    forall c | c in multiset(kept) ensures multiset(kept)[c] <= multiset(s[..|s| - 1])[c] {
      assert c in kept;
    }
    SmallerBag(kept, s[..|s| - 1]);
  }

  /** In a descending list the last k weigh no more than the k before the last. */
  lemma ShiftRight(s: seq<Contribution>, k: nat)
    requires Descending(s) && 0 < k < |s|
    ensures Aggregate(s[..|s| - 1][|s| - 1 - k..]) >= Aggregate(s[|s| - k..])
  {
    var n := |s| - 1;
    var mid := s[|s| - k..n];
    assert s[..n][n - k..] == [s[n - k]] + mid;
    assert s[|s| - k..] == mid + [s[n]];
    AggregateSplit([s[n - k]], mid);
    AggregateSplit(mid, [s[n]]);
    AggregateOne(s[n - k]);
    AggregateOne(s[n]);
  }

  lemma CutIsWithin(sorted: seq<Contribution>, limit: real)
    requires limit >= 0.0
    ensures Within(sorted[Cut(sorted, limit)..], limit)
  {
    var k := Cut(sorted, limit);
    if k == |sorted| {
      assert sorted[k..] == [];
    }
  }

  lemma CutParts(sorted: seq<Contribution>, k: nat)
    requires k <= |sorted|
    ensures multiset(sorted[..k]) + multiset(sorted[k..]) == multiset(sorted)
  {
    assert sorted == sorted[..k] + sorted[k..];
  }

  lemma LeftWithin(cs: seq<Contribution>, limit: real)
    requires limit >= 0.0
    ensures Within(Left(cs, limit), limit)
    ensures multiset(Moved(cs, limit)) + multiset(Left(cs, limit)) == multiset(cs)
  {
    CutIsWithin(SortDown(cs), limit);
    CutParts(SortDown(cs), Cut(SortDown(cs), limit));
  }

  /** What is left is within the limit; every kept collection of the same size weighs at least as
      much; every kept collection within the limit is no larger, so no smaller move list works. */
  lemma GreedyIsOptimal(cs: seq<Contribution>, limit: real, kept: seq<Contribution>)
    requires limit >= 0.0 && multiset(kept) <= multiset(cs)
    ensures Total(Positive(Left(cs, limit))) <= limit
    ensures multiset(Moved(cs, limit)) + multiset(Left(cs, limit)) == multiset(cs)
    ensures |kept| == |Left(cs, limit)| ==> Total(Positive(kept)) >= Total(Positive(Left(cs, limit)))
    ensures Total(Positive(kept)) <= limit ==> |kept| <= |Left(cs, limit)|
  {
    LeftWithin(cs, limit);
    AggregateExactly(kept);
    AggregateExactly(Left(cs, limit));
    SortDownDescends(cs);
    CutIsOptimal(SortDown(cs), limit, kept);
  }

  lemma CutIsOptimal(sorted: seq<Contribution>, limit: real, kept: seq<Contribution>)
    requires Descending(sorted) && multiset(kept) <= multiset(sorted)
    ensures |kept| == |sorted| - Cut(sorted, limit) ==> Aggregate(kept) >= Aggregate(sorted[Cut(sorted, limit)..])
    ensures Within(kept, limit) ==> |kept| <= |sorted| - Cut(sorted, limit)
  {
    LightestAreLast(sorted, kept);
    OptimalFromTail(sorted, limit, |sorted| - |kept|, Aggregate(kept));
  }

  lemma OptimalFromTail(sorted: seq<Contribution>, limit: real, j: nat, weight: real)
    requires j <= |sorted| && weight >= Aggregate(sorted[j..])
    ensures j == Cut(sorted, limit) ==> weight >= Aggregate(sorted[Cut(sorted, limit)..])
    ensures weight <= limit ==> j >= Cut(sorted, limit)
  {
    EarlierCutsExceed(sorted, limit, j);
  }

  lemma EarlierCutsExceed(sorted: seq<Contribution>, limit: real, j: nat)
    requires j <= |sorted|
    ensures j < Cut(sorted, limit) ==> !Within(sorted[j..], limit)
  {
  }

  /** The list is empty exactly when the channel was within its limit already. */
  lemma EmptyExactlyWhenWithin(cs: seq<Contribution>, limit: real)
    requires limit >= 0.0
    ensures Moved(cs, limit) == [] <==> Total(Positive(cs)) <= limit
  {
    AggregateExactly(cs);
    var sorted := SortDown(cs);
    AggregateOrderFree(sorted, cs);
    assert sorted[0..] == sorted;
    if cs == [] {
      assert sorted == [];
    }
  }

  /** Raising the limit keeps a prefix of the old list. */
  lemma HigherLimitIsPrefix(cs: seq<Contribution>, limit: real, higher: real)
    requires limit <= higher
    ensures Moved(cs, higher) <= Moved(cs, limit)
  {
    var sorted := SortDown(cs);
    var k, h := Cut(sorted, limit), Cut(sorted, higher);
    assert h > k ==> !Within(sorted[k..], higher);
  }

  // ------------------------------------------------------- one protected channel

  datatype GrantRf = GrantRf(grantId: string, range: Range)

  /** Interference of one grant at the reference point: None when it has none in the band. */
  datatype PathLoss = Unavailable | Hit(mw: Option<real>)

  datatype Evaluation = Evaluation(contributions: seq<Contribution>, moved: seq<string>, ok: bool)

  function Overlapping(grants: seq<GrantRf>, band: Range): (r: seq<GrantRf>)
    ensures forall g :: g in r <==> g in grants && Overlaps(g.range, band)
  {
    if grants == [] then []
    else
      var n := |grants| - 1;
      assert grants == grants[..n] + [grants[n]];
      Overlapping(grants[..n], band) + if Overlaps(grants[n].range, band) then [grants[n]] else []
  }

  function Contributions(grants: seq<GrantRf>, loss: GrantRf -> PathLoss): (r: seq<Contribution>) {
    if grants == [] then []
    else
      var g := grants[|grants| - 1];
      Contributions(grants[..|grants| - 1], loss) +
      if loss(g).Hit? && loss(g).mw.Some? then [Contribution(g.grantId, loss(g).mw.value)] else []
  }

  function RfIds(grants: seq<GrantRf>): (r: seq<string>)
    ensures |r| == |grants| && forall i :: 0 <= i < |r| ==> r[i] == grants[i].grantId
  {
    seq(|grants|, i requires 0 <= i < |grants| => grants[i].grantId)
  }

  /** What the grants in the band contribute, in their order. */
  function Heard(grants: seq<GrantRf>, band: Range, loss: GrantRf -> PathLoss): (r: seq<Contribution>) {
    if grants == [] then []
    else if grants[0].range.low < band.high && band.low < grants[0].range.high && loss(grants[0]).Hit? && loss(grants[0]).mw.Some?
    then [Contribution(grants[0].grantId, loss(grants[0]).mw.value)] + Heard(grants[1..], band, loss)
    else Heard(grants[1..], band, loss)
  }

  /** The ids of the grants in the band, in their order. */
  function IdsInBand(grants: seq<GrantRf>, band: Range): (r: seq<string>) {
    if grants == [] then []
    else if grants[0].range.low < band.high && band.low < grants[0].range.high then [grants[0].grantId] + IdsInBand(grants[1..], band)
    else IdsInBand(grants[1..], band)
  }

  lemma {:induction false} HeardJoin(a: seq<GrantRf>, b: seq<GrantRf>, band: Range, loss: GrantRf -> PathLoss)
    ensures Heard(a + b, band, loss) == Heard(a, band, loss) + Heard(b, band, loss)
    ensures IdsInBand(a + b, band) == IdsInBand(a, band) + IdsInBand(b, band)
  {
    if a == [] {
      assert a + b == b;
    } else {
      assert (a + b)[1..] == a[1..] + b;
      HeardJoin(a[1..], b, band, loss);
    }
  }

  lemma HeardLast(front: seq<GrantRf>, g: GrantRf, band: Range, loss: GrantRf -> PathLoss)
    ensures Heard(front + [g], band, loss) ==
            Heard(front, band, loss) +
            if Overlaps(g.range, band) && loss(g).Hit? && loss(g).mw.Some? then [Contribution(g.grantId, loss(g).mw.value)] else []
    ensures IdsInBand(front + [g], band) == IdsInBand(front, band) + if Overlaps(g.range, band) then [g.grantId] else []
  {
    HeardJoin(front, [g], band, loss);
    HeardOne(g, band, loss);
  }

  lemma HeardOne(g: GrantRf, band: Range, loss: GrantRf -> PathLoss)
    ensures Heard([g], band, loss) == if Overlaps(g.range, band) && loss(g).Hit? && loss(g).mw.Some? then [Contribution(g.grantId, loss(g).mw.value)] else []
    ensures IdsInBand([g], band) == if Overlaps(g.range, band) then [g.grantId] else []
  {
    assert [g][1..] == [];
  }

  lemma ContributionsStep(grants: seq<GrantRf>, g: GrantRf, loss: GrantRf -> PathLoss)
    ensures Contributions(grants + [g], loss) ==
            Contributions(grants, loss) + if loss(g).Hit? && loss(g).mw.Some? then [Contribution(g.grantId, loss(g).mw.value)] else []
    ensures RfIds(grants + [g]) == RfIds(grants) + [g.grantId]
  {
    assert (grants + [g])[..|grants|] == grants;
  }

  lemma OverlappingLast(front: seq<GrantRf>, g: GrantRf, band: Range)
    ensures Overlapping(front + [g], band) == Overlapping(front, band) + if Overlaps(g.range, band) then [g] else []
  {
    assert (front + [g])[..|front|] == front;
  }

  lemma {:induction false} HeardExactly(grants: seq<GrantRf>, band: Range, loss: GrantRf -> PathLoss)
    ensures Contributions(Overlapping(grants, band), loss) == Heard(grants, band, loss)
    ensures RfIds(Overlapping(grants, band)) == IdsInBand(grants, band)
  {
    if grants != [] {
      var front, g := grants[..|grants| - 1], grants[|grants| - 1];
      HeardExactly(front, band, loss);
      HeardLast(front, g, band, loss);
      OverlappingLast(front, g, band);
      assert front + [g] == grants;
      if Overlaps(g.range, band) {
        ContributionsStep(Overlapping(front, band), g, loss);
      } else {
        assert Overlapping(front, band) + [] == Overlapping(front, band);
      }
    }
  }

  /** A grant in the band whose path loss cannot be computed. */
  predicate LossMissing(band: Range, grants: seq<GrantRf>, loss: GrantRf -> PathLoss) {
    exists g :: g in grants && g.range.low < band.high && band.low < g.range.high && loss(g).Unavailable?
  }

  /** The evaluation in the fields of grants and losses. */
  ghost predicate EvaluatesInFields(band: Range, hasPoint: bool, grants: seq<GrantRf>, loss: GrantRf -> PathLoss, limit: real, e: Evaluation) {
    if !hasPoint || LossMissing(band, grants, loss) then e == Evaluation([], IdsInBand(grants, band), false)
    else && e.contributions == Heard(grants, band, loss)
         && (e.ok <==> Total(Positive(e.contributions)) <= limit)
         && MovesInFields(e.contributions, limit, e.moved)
  }

  lemma LossMissingExactly(band: Range, grants: seq<GrantRf>, loss: GrantRf -> PathLoss)
    ensures LossMissing(band, grants, loss) <==> !forall g :: g in Overlapping(grants, band) ==> loss(g).Hit?
  {
  }

  /** Fail closed: no reference point or no path loss puts every overlapping grant on the list. */
  method EvaluateProtectedChannel(band: Range, hasPoint: bool, grants: seq<GrantRf>, loss: GrantRf -> PathLoss, limit: real)
    returns (e: Evaluation)
    requires limit >= 0.0
    ensures hasPoint && (forall g :: g in Overlapping(grants, band) ==> loss(g).Hit?) ==>
              var cs := Contributions(Overlapping(grants, band), loss);
              e == Evaluation(cs, Ids(Moved(cs, limit)), Within(cs, limit))
    ensures !(hasPoint && (forall g :: g in Overlapping(grants, band) ==> loss(g).Hit?)) ==>
              e == Evaluation([], RfIds(Overlapping(grants, band)), false)
    ensures e.ok ==> e.moved == []
    ensures EvaluatesInFields(band, hasPoint, grants, loss, limit, e)
  {
    var over := Overlapping(grants, band);
    HeardExactly(grants, band, loss);
    LossMissingExactly(band, grants, loss);
    e := Evaluation([], RfIds(over), false);
    if hasPoint {
      var cs := ContributionsOf(over, loss);
      if cs.Some? {
        EmptyExactlyWhenWithin(cs.value, limit);
        AggregateExactly(cs.value);
        var moved := BuildMovelist(cs.value, limit);
        e := Evaluation(cs.value, moved, Aggregate(cs.value) <= limit);
      }
    }
  }

  /** None when a path loss cannot be computed. */
  method ContributionsOf(over: seq<GrantRf>, loss: GrantRf -> PathLoss) returns (cs: Option<seq<Contribution>>)
    ensures cs.Some? <==> forall g :: g in over ==> loss(g).Hit?
    ensures cs.Some? ==> cs.value == Contributions(over, loss)
  {
    var found: seq<Contribution> := [];
    for i := 0 to |over|
      invariant found == Contributions(over[..i], loss)
      invariant forall g :: g in over[..i] ==> loss(g).Hit?
    {
      assert over[..i + 1] == over[..i] + [over[i]];
      ContributionsStep(over[..i], over[i], loss);
      match loss(over[i])
      case Unavailable =>
        assert over[i] in over;
        return None;
      case Hit(mw) =>
        if mw.Some? {
          found := found + [Contribution(over[i].grantId, mw.value)];
        }
    }
    assert over[..|over|] == over;
    return Some(found);
  }
}
