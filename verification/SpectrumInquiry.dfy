/** Spectrum inquiry (services/spectrum_inquiry_service.py): which channels a CBSD is offered. */
module SpectrumInquiry {
  import opened Wrappers
  import opened Spectrum

  datatype Cbsd = Cbsd(cbsdId: string, userId: string, located: bool)

  /** Injected records with the point-in-zone and distance answers for the asking CBSD filled in. */
  datatype Wisp = Wisp(freq: Option<Range>, holdsPoint: bool)
  datatype Fss = Fss(readable: bool, near: bool)
  datatype Pal = Pal(palId: string, userId: string, freq: Option<Range>, licenseExp: Option<int>)
  datatype Zone = Zone(isPpa: bool, cluster: set<string>, palIds: seq<string>, holdsPoint: bool)

  /** `exclusions` is None when the exclusion-zone data cannot be used. */
  datatype Incumbents = Incumbents(
    exclusions: Option<seq<Range>>, wisps: seq<Wisp>, fsses: seq<Fss>, pals: seq<Pal>, zones: seq<Zone>)

  datatype Kind = PAL | GAA
  datatype Channel = Channel(range: Range, kind: Kind)

  /** One PAL reached through one PPA zone, as seen by the asking CBSD. */
  datatype Link = Link(freq: Range, inCluster: bool, inPpa: bool, userId: string, exp: Option<int>, palId: string)

  // ---------------------------------------------------------------- links

  /** Later records with the same id replace earlier ones; blank ids are skipped. */
  function PalById(pals: seq<Pal>): (m: map<string, Pal>)
    ensures forall id :: id in m ==> m[id] in pals && m[id].palId == id != ""
  {
    if pals == [] then map[]
    else
      var last := pals[|pals| - 1];
      var m := PalById(pals[..|pals| - 1]);
      if last.palId == "" then m else m[last.palId := last]
  }

  predicate Owns(cbsd: Cbsd, pals: seq<Pal>, palId: string) {
    palId != "" && exists i :: 0 <= i < |pals| && pals[i].palId == palId && pals[i].userId == cbsd.userId
  }

  function LinkOf(cbsd: Cbsd, byId: map<string, Pal>, zone: Zone, palId: string): (r: seq<Link>)
    ensures |r| <= 1
  {
    if palId in byId && byId[palId].freq.Some? then
      [Link(byId[palId].freq.value, cbsd.cbsdId in zone.cluster, cbsd.located && zone.holdsPoint,
            byId[palId].userId, byId[palId].licenseExp, palId)]
    else []
  }

  function ZoneLinks(cbsd: Cbsd, byId: map<string, Pal>, zone: Zone, palIds: seq<string>): (r: seq<Link>) {
    if palIds == [] then []
    else
      ZoneLinks(cbsd, byId, zone, palIds[..|palIds| - 1]) + LinkOf(cbsd, byId, zone, palIds[|palIds| - 1])
  }

  function Links(cbsd: Cbsd, byId: map<string, Pal>, zones: seq<Zone>): (r: seq<Link>) {
    if zones == [] then []
    else
      var last := zones[|zones| - 1];
      Links(cbsd, byId, zones[..|zones| - 1]) + if last.isPpa then ZoneLinks(cbsd, byId, last, last.palIds) else []
  }

  /** The PAL range of a link is kept from general access: member of the cluster, or inside the area. */
  predicate Held(link: Link) {
    link.inCluster || link.inPpa
  }

  predicate Usable(cbsd: Cbsd, pals: seq<Pal>, link: Link) {
    link.inCluster && Owns(cbsd, pals, link.palId)
  }

  // ------------------------------------------------- what the loops compute

  function Clipped(inquired: seq<Range>): (r: seq<Range>) {
    if inquired == [] then []
    else
      var q := inquired[|inquired| - 1];
      var c := Range(Max(q.low, CBRS_LOW_HZ), Min(q.high, CBRS_HIGH_HZ));
      Clipped(inquired[..|inquired| - 1]) + if c.high > c.low then [c] else []
  }

  function Excluding(segments: seq<Range>, exclusions: seq<Range>): (r: seq<Range>) {
    if exclusions == [] then segments
    else Subtracted(Excluding(segments, exclusions[..|exclusions| - 1]), exclusions[|exclusions| - 1])
  }

  function WispRanges(wisps: seq<Wisp>): (r: seq<Range>) {
    if wisps == [] then []
    else
      var w := wisps[|wisps| - 1];
      WispRanges(wisps[..|wisps| - 1]) + if w.freq.Some? && w.holdsPoint then [w.freq.value] else []
  }

  function FssRanges(fsses: seq<Fss>): (r: seq<Range>) {
    if fsses == [] then []
    else
      var f := fsses[|fsses| - 1];
      FssRanges(fsses[..|fsses| - 1]) +
      if f.readable && f.near then [Range(FSS_EXCLUSION_LOW_HZ, CBRS_HIGH_HZ)] else []
  }

  function HeldRanges(links: seq<Link>): (r: seq<Range>) {
    if links == [] then []
    else
      var k := links[|links| - 1];
      HeldRanges(links[..|links| - 1]) + if Held(k) then [k.freq] else []
  }

  function IncumbentRanges(cbsd: Cbsd, inc: Incumbents): (r: seq<Range>) {
    if cbsd.located && inc.exclusions.Some? then inc.exclusions.value + WispRanges(inc.wisps) + FssRanges(inc.fsses)
    else []
  }

  function LinksFor(cbsd: Cbsd, inc: Incumbents): (r: seq<Link>) {
    Links(cbsd, PalById(inc.pals), inc.zones)
  }

  /** What is open before any PAL is looked at. */
  function BaseFor(cbsd: Cbsd, inc: Incumbents, inquired: seq<Range>): (r: seq<Range>) {
    Excluding(Clipped(inquired), IncumbentRanges(cbsd, inc))
  }

  /** Segments left once these links have been served. */
  function SegmentsAt(base: seq<Range>, links: seq<Link>): (r: seq<Range>) {
    Excluding(base, HeldRanges(links))
  }

  predicate Touches(segments: seq<Range>, r: Range) {
    exists i :: 0 <= i < |segments| && Overlaps(segments[i], r)
  }

  function PalOffers(cbsd: Cbsd, pals: seq<Pal>, base: seq<Range>, links: seq<Link>): (r: seq<Range>) {
    if links == [] then []
    else
      var k := links[|links| - 1];
      var before := links[..|links| - 1];
      PalOffers(cbsd, pals, base, before) +
      if Usable(cbsd, pals, k) && Touches(SegmentsAt(base, before), k.freq) then [k.freq] else []
  }

  function Tagged(ranges: seq<Range>, kind: Kind): (r: seq<Channel>)
    ensures |r| == |ranges|
    ensures forall i :: 0 <= i < |r| ==> r[i] == Channel(ranges[i], kind)
  {
    seq(|ranges|, i requires 0 <= i < |ranges| => Channel(ranges[i], kind))
  }

  function CutAll(segments: seq<Range>): (r: seq<Range>) {
    if segments == [] then []
    else
      var s := segments[|segments| - 1];
      CutAll(segments[..|segments| - 1]) +
      GridCut(Max(s.low, CBRS_LOW_HZ), Min(s.high, CBRS_HIGH_HZ), CHANNEL_HZ)
  }

  predicate KeyLeq(a: Channel, b: Channel) {
    a.range.low < b.range.low || (a.range.low == b.range.low && a.range.high <= b.range.high)
  }

  function Insert(c: Channel, s: seq<Channel>): (r: seq<Channel>)
    ensures multiset(r) == multiset(s) + multiset{c}
  {
    if s == [] || KeyLeq(c, s[0]) then [c] + s
    else
      assert s == [s[0]] + s[1..];
      [s[0]] + Insert(c, s[1..])
  }

  function SortChannels(s: seq<Channel>): (r: seq<Channel>)
    ensures multiset(r) == multiset(s)
  {
    if s == [] then []
    else
      assert s == [s[0]] + s[1..];
      Insert(s[0], SortChannels(s[1..]))
  }

  ghost function FinalSegments(cbsd: Cbsd, inc: Incumbents, inquired: seq<Range>): (r: seq<Range>) {
    SegmentsAt(BaseFor(cbsd, inc, inquired), LinksFor(cbsd, inc))
  }

  ghost function Answer(cbsd: Cbsd, inc: Incumbents, inquired: seq<Range>): (r: seq<Channel>) {
    if cbsd.located && inc.exclusions.None? then []
    else
      var base := BaseFor(cbsd, inc, inquired);
      SortChannels(
        Tagged(PalOffers(cbsd, inc.pals, base, LinksFor(cbsd, inc)), PAL) +
        Tagged(CutAll(FinalSegments(cbsd, inc, inquired)), GAA))
  }

  // ------------------------------------------------- the records, field by field

  /** Record n is the one its PAL id stands for: the last with this id. */
  predicate IsLast(pals: seq<Pal>, n: nat, palId: string) {
    n < |pals| && palId != "" && pals[n].palId == palId && forall m :: n < m < |pals| ==> pals[m].palId != palId
  }

  /** Entry p of zone z leads to this link. */
  predicate IsLink(cbsd: Cbsd, inc: Incumbents, z: nat, p: nat, k: Link) {
    && z < |inc.zones| && inc.zones[z].isPpa && p < |inc.zones[z].palIds|
    && k.palId == inc.zones[z].palIds[p]
    && (k.inCluster <==> cbsd.cbsdId in inc.zones[z].cluster)
    && (k.inPpa <==> cbsd.located && inc.zones[z].holdsPoint)
    && exists n :: 0 <= n < |inc.pals| && IsLast(inc.pals, n, k.palId)
                   && inc.pals[n].freq == Some(k.freq) && inc.pals[n].userId == k.userId && inc.pals[n].licenseExp == k.exp
  }

  /** Entry p of zone z comes before entry q of zone y. */
  predicate Sooner(z: nat, p: nat, y: nat, q: nat) {
    z < y || (z == y && p < q)
  }

  /** Links of the entries before entry q of zone y. */
  function LinksBefore(cbsd: Cbsd, inc: Incumbents, y: nat, q: nat): (r: seq<Link>)
    requires y <= |inc.zones| && (y == |inc.zones| ==> q == 0) && (y < |inc.zones| ==> q <= |inc.zones[y].palIds|)
  {
    Links(cbsd, PalById(inc.pals), inc.zones[..y]) +
    if y < |inc.zones| && inc.zones[y].isPpa then ZoneLinks(cbsd, PalById(inc.pals), inc.zones[y], inc.zones[y].palIds[..q]) else []
  }

  ghost predicate LinkedBefore(cbsd: Cbsd, inc: Incumbents, y: nat, q: nat, k: Link) {
    exists z: nat, p: nat :: Sooner(z, p, y, q) && IsLink(cbsd, inc, z, p, k)
  }

  lemma IsLastStep(front: seq<Pal>, last: Pal, n: nat, palId: string)
    ensures IsLast(front + [last], n, palId) <==>
            if last.palId == palId then n == |front| && palId != "" else IsLast(front, n, palId)
  {
    assert (front + [last])[|front|] == last;
    if last.palId != palId && IsLast(front, n, palId) {
      assert (front + [last])[n] == front[n];
    }
    if last.palId != palId && IsLast(front + [last], n, palId) {
      assert forall m :: 0 <= m < |front| ==> (front + [last])[m] == front[m];
    }
  }

  lemma {:induction false} LastRecordCounts(pals: seq<Pal>, palId: string, n: nat)
    requires n < |pals| && IsLast(pals, n, palId)
    ensures palId in PalById(pals) && PalById(pals)[palId] == pals[n]
  {
    var front, last := pals[..|pals| - 1], pals[|pals| - 1];
    assert pals == front + [last];
    IsLastStep(front, last, n, palId);
    if last.palId != palId {
      LastRecordCounts(front, palId, n);
    }
  }

  lemma {:induction false} RecordOfPal(pals: seq<Pal>, palId: string) returns (n: nat)
    requires palId in PalById(pals)
    ensures n < |pals| && IsLast(pals, n, palId) && PalById(pals)[palId] == pals[n]
  {
    var front, last := pals[..|pals| - 1], pals[|pals| - 1];
    assert pals == front + [last];
    if last.palId == palId {
      n := |front|;
    } else {
      n := RecordOfPal(front, palId);
    }
    IsLastStep(front, last, n, palId);
  }

  lemma LinkOfExactly(cbsd: Cbsd, inc: Incumbents, z: nat, p: nat, k: Link)
    requires z < |inc.zones| && inc.zones[z].isPpa && p < |inc.zones[z].palIds|
    ensures k in LinkOf(cbsd, PalById(inc.pals), inc.zones[z], inc.zones[z].palIds[p]) <==> IsLink(cbsd, inc, z, p, k)
  {
    var palId := inc.zones[z].palIds[p];
    if palId in PalById(inc.pals) {
      var n := RecordOfPal(inc.pals, palId);
    }
    if IsLink(cbsd, inc, z, p, k) {
      var n :| 0 <= n < |inc.pals| && IsLast(inc.pals, n, k.palId)
               && inc.pals[n].freq == Some(k.freq) && inc.pals[n].userId == k.userId && inc.pals[n].licenseExp == k.exp;
      LastRecordCounts(inc.pals, palId, n);
    }
  }

  lemma LinkedBeforeNext(cbsd: Cbsd, inc: Incumbents, y: nat, q: nat, k: Link)
    ensures LinkedBefore(cbsd, inc, y, q + 1, k) <==> LinkedBefore(cbsd, inc, y, q, k) || IsLink(cbsd, inc, y, q, k)
  {
    if LinkedBefore(cbsd, inc, y, q + 1, k) {
      var z: nat, p: nat :| Sooner(z, p, y, q + 1) && IsLink(cbsd, inc, z, p, k);
      assert Sooner(z, p, y, q) || (z == y && p == q);
    }
    if LinkedBefore(cbsd, inc, y, q, k) {
      var z: nat, p: nat :| Sooner(z, p, y, q) && IsLink(cbsd, inc, z, p, k);
      assert Sooner(z, p, y, q + 1);
    }
    assert Sooner(y, q, y, q + 1);
  }

  lemma LinkedBeforeZone(cbsd: Cbsd, inc: Incumbents, y: nat, k: Link)
    requires y < |inc.zones|
    ensures LinkedBefore(cbsd, inc, y + 1, 0, k) <==> LinkedBefore(cbsd, inc, y, |inc.zones[y].palIds|, k)
  {
    var q := |inc.zones[y].palIds|;
    if LinkedBefore(cbsd, inc, y + 1, 0, k) {
      var z: nat, p: nat :| Sooner(z, p, y + 1, 0) && IsLink(cbsd, inc, z, p, k);
      assert Sooner(z, p, y, q);
    }
    if LinkedBefore(cbsd, inc, y, q, k) {
      var z: nat, p: nat :| Sooner(z, p, y, q) && IsLink(cbsd, inc, z, p, k);
      assert Sooner(z, p, y + 1, 0);
    }
  }

  lemma LinksBeforeNext(cbsd: Cbsd, inc: Incumbents, y: nat, q: nat)
    requires y < |inc.zones| && q < |inc.zones[y].palIds|
    ensures LinksBefore(cbsd, inc, y, q + 1) ==
            LinksBefore(cbsd, inc, y, q) +
            if inc.zones[y].isPpa then LinkOf(cbsd, PalById(inc.pals), inc.zones[y], inc.zones[y].palIds[q]) else []
  {
    assert inc.zones[y].palIds[..q + 1][..q] == inc.zones[y].palIds[..q];
  }

  lemma LinksBeforeZone(cbsd: Cbsd, inc: Incumbents, y: nat)
    requires y < |inc.zones|
    ensures LinksBefore(cbsd, inc, y + 1, 0) == LinksBefore(cbsd, inc, y, |inc.zones[y].palIds|)
  {
    assert inc.zones[..y + 1][..y] == inc.zones[..y];
    assert inc.zones[y].palIds[..|inc.zones[y].palIds|] == inc.zones[y].palIds;
    if y + 1 < |inc.zones| {
      assert inc.zones[y + 1].palIds[..0] == [];
    }
  }

  /** The links walked before an entry are those of the earlier entries. */
  lemma {:induction false} LinksBeforeExactly(cbsd: Cbsd, inc: Incumbents, y: nat, q: nat, k: Link)
    requires y <= |inc.zones| && (y == |inc.zones| ==> q == 0) && (y < |inc.zones| ==> q <= |inc.zones[y].palIds|)
    ensures k in LinksBefore(cbsd, inc, y, q) <==> LinkedBefore(cbsd, inc, y, q, k)
    decreases y, q
  {
    if q > 0 {
      LinksBeforeExactly(cbsd, inc, y, q - 1, k);
      LinksBeforeNext(cbsd, inc, y, q - 1);
      LinkedBeforeNext(cbsd, inc, y, q - 1, k);
      if inc.zones[y].isPpa {
        LinkOfExactly(cbsd, inc, y, q - 1, k);
      }
    } else if y > 0 {
      LinksBeforeExactly(cbsd, inc, y - 1, |inc.zones[y - 1].palIds|, k);
      LinksBeforeZone(cbsd, inc, y - 1);
      LinkedBeforeZone(cbsd, inc, y - 1, k);
    }
  }

  ghost predicate Linked(cbsd: Cbsd, inc: Incumbents, k: Link) {
    exists z: nat, p: nat :: IsLink(cbsd, inc, z, p, k)
  }

  /** The links of a CBSD are those of all entries of all PPA zones. */
  lemma LinksExactly(cbsd: Cbsd, inc: Incumbents, k: Link)
    ensures k in LinksFor(cbsd, inc) <==> Linked(cbsd, inc, k)
  {
    var y := |inc.zones|;
    LinksBeforeExactly(cbsd, inc, y, 0, k);
    AllLinksBefore(cbsd, inc);
    if Linked(cbsd, inc, k) {
      var z: nat, p: nat :| IsLink(cbsd, inc, z, p, k);
      assert Sooner(z, p, y, 0);
    }
  }

  // ------------------------------------------------------------- the loops

  method ClipInquired(inquired: seq<Range>) returns (segments: seq<Range>)
    ensures segments == Clipped(inquired)
  {
    segments := [];
    for i := 0 to |inquired|
      invariant segments == Clipped(inquired[..i])
    {
      assert inquired[..i + 1][..i] == inquired[..i];
      var low, high := Max(inquired[i].low, CBRS_LOW_HZ), Min(inquired[i].high, CBRS_HIGH_HZ);
      if high > low {
        segments := segments + [Range(low, high)];
      }
    }
    assert inquired[..|inquired|] == inquired;
  }

  lemma ExcludingStep(segments: seq<Range>, done: seq<Range>, ex: Range)
    ensures Excluding(segments, done + [ex]) == Subtracted(Excluding(segments, done), ex)
  {
    assert (done + [ex])[..|done|] == done;
  }

  lemma WispStep(done: seq<Range>, wisps: seq<Wisp>, i: nat)
    requires i < |wisps|
    ensures done + WispRanges(wisps[..i + 1]) == done + WispRanges(wisps[..i]) + WispRanges([wisps[i]])
  {
    assert wisps[..i + 1][..i] == wisps[..i];
    assert [wisps[i]][..0] == [];
  }

  method SubtractWisps(clipped: seq<Range>, ghost done: seq<Range>, segments0: seq<Range>, wisps: seq<Wisp>)
    returns (segments: seq<Range>)
    requires segments0 == Excluding(clipped, done)
    ensures segments == Excluding(clipped, done + WispRanges(wisps))
  {
    segments := segments0;
    ghost var sofar := done;
    for i := 0 to |wisps|
      invariant sofar == done + WispRanges(wisps[..i])
      invariant segments == Excluding(clipped, sofar)
    {
      WispStep(done, wisps, i);
      ghost var next := sofar + WispRanges([wisps[i]]);
      assert [wisps[i]][..0] == [];
      if wisps[i].freq.Some? && wisps[i].holdsPoint {
        ExcludingStep(clipped, sofar, wisps[i].freq.value);
        segments := SubtractRange(segments, wisps[i].freq.value);
      } else {
        assert next == sofar;
      }
      sofar := next;
    }
    assert wisps[..|wisps|] == wisps;
  }

  lemma FssStep(done: seq<Range>, fsses: seq<Fss>, i: nat)
    requires i < |fsses|
    ensures done + FssRanges(fsses[..i + 1]) == done + FssRanges(fsses[..i]) + FssRanges([fsses[i]])
  {
    assert fsses[..i + 1][..i] == fsses[..i];
    assert [fsses[i]][..0] == [];
  }

  method SubtractFss(clipped: seq<Range>, ghost done: seq<Range>, segments0: seq<Range>, fsses: seq<Fss>)
    returns (segments: seq<Range>)
    requires segments0 == Excluding(clipped, done)
    ensures segments == Excluding(clipped, done + FssRanges(fsses))
  {
    segments := segments0;
    ghost var sofar := done;
    for i := 0 to |fsses|
      invariant sofar == done + FssRanges(fsses[..i])
      invariant segments == Excluding(clipped, sofar)
    {
      FssStep(done, fsses, i);
      ghost var next := sofar + FssRanges([fsses[i]]);
      assert [fsses[i]][..0] == [];
      if fsses[i].readable && fsses[i].near {
        ExcludingStep(clipped, sofar, Range(FSS_EXCLUSION_LOW_HZ, CBRS_HIGH_HZ));
        segments := SubtractRange(segments, Range(FSS_EXCLUSION_LOW_HZ, CBRS_HIGH_HZ));
      } else {
        assert next == sofar;
      }
      sofar := next;
    }
    assert fsses[..|fsses|] == fsses;
  }

  method SubtractIncumbents(cbsd: Cbsd, inc: Incumbents, clipped: seq<Range>) returns (segments: seq<Range>)
    requires cbsd.located ==> inc.exclusions.Some?
    ensures segments == Excluding(clipped, IncumbentRanges(cbsd, inc))
  {
    segments := clipped;
    if !cbsd.located {
      return;
    }
    var exz := inc.exclusions.value;
    for i := 0 to |exz|
      invariant segments == Excluding(clipped, exz[..i])
    {
      assert exz[..i + 1] == exz[..i] + [exz[i]];
      ExcludingStep(clipped, exz[..i], exz[i]);
      segments := SubtractRange(segments, exz[i]);
    }
    assert exz[..|exz|] == exz;
    segments := SubtractWisps(clipped, exz, segments, inc.wisps);
    segments := SubtractFss(clipped, exz + WispRanges(inc.wisps), segments, inc.fsses);
  }

  lemma ServedStep(cbsd: Cbsd, pals: seq<Pal>, base: seq<Range>, links: seq<Link>, k: Link)
    ensures SegmentsAt(base, links + [k]) == if Held(k) then Subtracted(SegmentsAt(base, links), k.freq) else SegmentsAt(base, links)
    ensures PalOffers(cbsd, pals, base, links + [k]) ==
            PalOffers(cbsd, pals, base, links) +
            if Usable(cbsd, pals, k) && Touches(SegmentsAt(base, links), k.freq) then [k.freq] else []
  {
    assert (links + [k])[..|links|] == links;
    if Held(k) {
      ExcludingStep(base, HeldRanges(links), k.freq);
    } else {
      assert HeldRanges(links + [k]) == HeldRanges(links);
    }
  }

  /** One PAL of one zone: use it, protect it, or leave it alone. */
  method ServeLink(cbsd: Cbsd, pals: seq<Pal>, k: Link, base: seq<Range>, ghost done: seq<Link>,
                   segments0: seq<Range>, offers0: seq<Range>)
    returns (segments: seq<Range>, offers: seq<Range>)
    requires segments0 == SegmentsAt(base, done) && offers0 == PalOffers(cbsd, pals, base, done)
    ensures segments == SegmentsAt(base, done + [k]) && offers == PalOffers(cbsd, pals, base, done + [k])
  {
    segments, offers := segments0, offers0;
    ServedStep(cbsd, pals, base, done, k);
    if k.inCluster && Owns(cbsd, pals, k.palId) {
      if Touches(segments, k.freq) {
        offers := offers + [k.freq];
      }
      segments := SubtractRange(segments, k.freq);
    } else if k.inCluster {
      segments := SubtractRange(segments, k.freq);
    } else if k.inPpa {
      segments := SubtractRange(segments, k.freq);
    }
  }

  lemma ZoneLinksStep(cbsd: Cbsd, byId: map<string, Pal>, zone: Zone, done: seq<Link>, p: nat)
    requires p < |zone.palIds|
    ensures done + ZoneLinks(cbsd, byId, zone, zone.palIds[..p + 1])
         == done + ZoneLinks(cbsd, byId, zone, zone.palIds[..p]) + LinkOf(cbsd, byId, zone, zone.palIds[p])
  {
    assert zone.palIds[..p + 1][..p] == zone.palIds[..p];
  }

  /** The inner loop: one PPA zone, its PAL ids in order. */
  method ServeZone(cbsd: Cbsd, pals: seq<Pal>, byId: map<string, Pal>, zone: Zone, base: seq<Range>,
                   ghost done: seq<Link>, segments0: seq<Range>, offers0: seq<Range>)
    returns (segments: seq<Range>, offers: seq<Range>)
    requires segments0 == SegmentsAt(base, done) && offers0 == PalOffers(cbsd, pals, base, done)
    ensures segments == SegmentsAt(base, done + ZoneLinks(cbsd, byId, zone, zone.palIds))
    ensures offers == PalOffers(cbsd, pals, base, done + ZoneLinks(cbsd, byId, zone, zone.palIds))
  {
    segments, offers := segments0, offers0;
    ghost var sofar := done;
    for p := 0 to |zone.palIds|
      invariant sofar == done + ZoneLinks(cbsd, byId, zone, zone.palIds[..p])
      invariant segments == SegmentsAt(base, sofar) && offers == PalOffers(cbsd, pals, base, sofar)
    {
      ZoneLinksStep(cbsd, byId, zone, done, p);
      var link := LinkOf(cbsd, byId, zone, zone.palIds[p]);
      ghost var next := sofar + link;
      if link != [] {
        segments, offers := ServeLink(cbsd, pals, link[0], base, sofar, segments, offers);
        assert link == [link[0]];
      } else {
        assert next == sofar;
      }
      sofar := next;
    }
    assert zone.palIds[..|zone.palIds|] == zone.palIds;
  }

  method ServePals(cbsd: Cbsd, inc: Incumbents, base: seq<Range>) returns (segments: seq<Range>, offers: seq<Range>)
    ensures segments == SegmentsAt(base, LinksFor(cbsd, inc))
    ensures offers == PalOffers(cbsd, inc.pals, base, LinksFor(cbsd, inc))
  {
    var byId := PalById(inc.pals);
    segments, offers := base, [];
    for z := 0 to |inc.zones|
      invariant segments == SegmentsAt(base, Links(cbsd, byId, inc.zones[..z]))
      invariant offers == PalOffers(cbsd, inc.pals, base, Links(cbsd, byId, inc.zones[..z]))
    {
      assert inc.zones[..z + 1][..z] == inc.zones[..z];
      ghost var done := Links(cbsd, byId, inc.zones[..z]);
      if inc.zones[z].isPpa {
        segments, offers := ServeZone(cbsd, inc.pals, byId, inc.zones[z], base, done, segments, offers);
      } else {
        assert Links(cbsd, byId, inc.zones[..z + 1]) == done;
      }
    }
    assert inc.zones[..|inc.zones|] == inc.zones;
  }

  lemma TaggedAppend(a: seq<Range>, r: Range, kind: Kind)
    ensures Tagged(a + [r], kind) == Tagged(a, kind) + [Channel(r, kind)]
  {
  }

  method EmitGaa(segments: seq<Range>, channels0: seq<Channel>) returns (channels: seq<Channel>)
    ensures channels == channels0 + Tagged(CutAll(segments), GAA)
  {
    channels := channels0;
    ghost var cuts: seq<Range> := [];
    for i := 0 to |segments|
      invariant cuts == CutAll(segments[..i])
      invariant channels == channels0 + Tagged(cuts, GAA)
    {
      assert segments[..i + 1][..i] == segments[..i];
      channels := EmitSegment(segments[i], channels0, cuts, channels);
      cuts := cuts + GridCut(Max(segments[i].low, CBRS_LOW_HZ), Min(segments[i].high, CBRS_HIGH_HZ), CHANNEL_HZ);
    }
    assert segments[..|segments|] == segments;
  }

  method EmitSegment(segment: Range, ghost channels0: seq<Channel>, ghost cuts: seq<Range>, sofar: seq<Channel>)
    returns (channels: seq<Channel>)
    requires sofar == channels0 + Tagged(cuts, GAA)
    ensures channels ==
            channels0 + Tagged(cuts + GridCut(Max(segment.low, CBRS_LOW_HZ), Min(segment.high, CBRS_HIGH_HZ), CHANNEL_HZ), GAA)
  {
    var cut := Split10Mhz(segment.low, segment.high);
    channels := EmitCut(cut, channels0, cuts, sofar);
  }

  method EmitCut(cut: seq<Range>, ghost channels0: seq<Channel>, ghost cuts: seq<Range>, sofar: seq<Channel>) returns (channels: seq<Channel>)
    requires sofar == channels0 + Tagged(cuts, GAA)
    ensures channels == channels0 + Tagged(cuts + cut, GAA)
  {
    channels := sofar;
    assert cuts + cut[..0] == cuts;
    for j := 0 to |cut|
      invariant channels == channels0 + Tagged(cuts + cut[..j], GAA)
    {
      channels := channels + [Channel(cut[j], GAA)];
      TaggedAppend(cuts + cut[..j], cut[j], GAA);
      assert cuts + cut[..j + 1] == (cuts + cut[..j]) + [cut[j]];
    }
    assert cut[..|cut|] == cut;
  }

  method EmitPals(pals: seq<Range>) returns (channels: seq<Channel>)
    ensures channels == Tagged(pals, PAL)
  {
    channels := [];
    for i := 0 to |pals|
      invariant channels == Tagged(pals[..i], PAL)
    {
      channels := channels + [Channel(pals[i], PAL)];
    }
    assert pals[..|pals|] == pals;
  }

  method BuildAvailableChannels(cbsd: Cbsd, inc: Incumbents, inquired: seq<Range>) returns (channels: seq<Channel>)
    ensures channels == Answer(cbsd, inc, inquired)
    ensures forall x :: OfferedAs(channels, GAA, x) <==> AvailableInFields(cbsd, inc, inquired, x)
    ensures (cbsd.located ==> inc.exclusions.Some?) && (forall k :: Linked(cbsd, inc, k) ==> k.freq.low < k.freq.high) ==>
              forall r :: Channel(r, PAL) in channels <==> exists y: nat, q: nat :: OfferedByEntry(cbsd, inc, inquired, y, q, r)
    ensures Ascending(channels)
    ensures forall c :: c in channels && c.kind == GAA ==> WithinGrid(c.range)
  {
    AnswerInFields(cbsd, inc, inquired);
    var segments := ClipInquired(inquired);
    if cbsd.located && inc.exclusions.None? {
      return [];
    }
    segments := SubtractIncumbents(cbsd, inc, segments);
    var pals;
    segments, pals := ServePals(cbsd, inc, segments);
    channels := EmitPals(pals);
    channels := EmitGaa(segments, channels);
    channels := SortChannels(channels);
  }

  // ------------------------------------------------------------- exactness

  /** Reference definition of what general access may be offered; no order of processing in it. */
  ghost predicate Available(cbsd: Cbsd, inc: Incumbents, inquired: seq<Range>, x: int) {
    && (cbsd.located ==> inc.exclusions.Some?)
    && Covers(inquired, x)
    && CBRS_LOW_HZ <= x < CBRS_HIGH_HZ
    && !Covers(IncumbentRanges(cbsd, inc), x)
    && (forall k :: k in LinksFor(cbsd, inc) && Held(k) ==> !In(x, k.freq))
  }

  /** An incumbent keeps this frequency: an exclusion zone, a WISP whose zone holds the CBSD, or a fixed
      satellite station near it. */
  ghost predicate TakenByIncumbent(cbsd: Cbsd, inc: Incumbents, x: int) {
    cbsd.located && inc.exclusions.Some?
    && ((exists e :: e in inc.exclusions.value && e.low <= x < e.high)
        || (exists w :: w in inc.wisps && w.holdsPoint && w.freq.Some? && w.freq.value.low <= x < w.freq.value.high)
        || (3_650_000_000 <= x < 3_700_000_000 && exists f :: f in inc.fsses && f.readable && f.near))
  }

  /** Inquired, in the band, and not an incumbent's. */
  ghost predicate OpenInFields(cbsd: Cbsd, inc: Incumbents, inquired: seq<Range>, x: int) {
    && (exists q :: q in inquired && q.low <= x < q.high) && 3_550_000_000 <= x < 3_700_000_000
    && !TakenByIncumbent(cbsd, inc, x)
  }

  /** Some entry before entry q of zone y has a PAL at this frequency and the CBSD in its cluster or its
      area. */
  ghost predicate KeptForPal(cbsd: Cbsd, inc: Incumbents, y: nat, q: nat, x: int) {
    exists k :: LinkedBefore(cbsd, inc, y, q, k) && (k.inCluster || k.inPpa) && k.freq.low <= x < k.freq.high
  }

  /** Reference definition of what general access may be offered, in the fields of the records. */
  ghost predicate AvailableInFields(cbsd: Cbsd, inc: Incumbents, inquired: seq<Range>, x: int) {
    && (cbsd.located ==> inc.exclusions.Some?)
    && OpenInFields(cbsd, inc, inquired, x) && !KeptForPal(cbsd, inc, |inc.zones|, 0, x)
  }

  lemma {:induction false} WispRangesExact(wisps: seq<Wisp>, x: int)
    ensures Covers(WispRanges(wisps), x)
            <==> exists w :: w in wisps && w.holdsPoint && w.freq.Some? && w.freq.value.low <= x < w.freq.value.high
  {
    if wisps != [] {
      var front, w := wisps[..|wisps| - 1], wisps[|wisps| - 1];
      WispRangesExact(front, x);
      assert wisps == front + [w];
      var more := if w.freq.Some? && w.holdsPoint then [w.freq.value] else [];
      assert WispRanges(wisps) == WispRanges(front) + more;
      CoversConcat(WispRanges(front), more, x);
      if more != [] {
        CoversOne(w.freq.value, x);
      }
    }
  }

  lemma {:induction false} FssRangesExact(fsses: seq<Fss>, x: int)
    ensures Covers(FssRanges(fsses), x)
            <==> 3_650_000_000 <= x < 3_700_000_000 && exists f :: f in fsses && f.readable && f.near
  {
    if fsses != [] {
      var front, f := fsses[..|fsses| - 1], fsses[|fsses| - 1];
      FssRangesExact(front, x);
      assert fsses == front + [f];
      var above := Range(FSS_EXCLUSION_LOW_HZ, CBRS_HIGH_HZ);
      var more := if f.readable && f.near then [above] else [];
      assert FssRanges(fsses) == FssRanges(front) + more;
      CoversConcat(FssRanges(front), more, x);
      CoversOne(above, x);
    }
  }

  lemma CoversMembers(s: seq<Range>, x: int)
    ensures Covers(s, x) <==> exists r :: r in s && r.low <= x < r.high
  {
    if Covers(s, x) {
      var i :| 0 <= i < |s| && In(x, s[i]);
      assert s[i] in s;
    }
    if exists r :: r in s && r.low <= x < r.high {
      var r :| r in s && r.low <= x < r.high;
      var i :| 0 <= i < |s| && s[i] == r;
      assert In(x, s[i]);
    }
  }

  lemma TakenExactly(cbsd: Cbsd, inc: Incumbents, x: int)
    ensures Covers(IncumbentRanges(cbsd, inc), x) <==> TakenByIncumbent(cbsd, inc, x)
  {
    if cbsd.located && inc.exclusions.Some? {
      CoversConcat(inc.exclusions.value + WispRanges(inc.wisps), FssRanges(inc.fsses), x);
      CoversConcat(inc.exclusions.value, WispRanges(inc.wisps), x);
      CoversMembers(inc.exclusions.value, x);
      WispRangesExact(inc.wisps, x);
      FssRangesExact(inc.fsses, x);
    }
  }

  lemma BaseInFields(cbsd: Cbsd, inc: Incumbents, inquired: seq<Range>, x: int)
    ensures Covers(BaseFor(cbsd, inc, inquired), x) <==> OpenInFields(cbsd, inc, inquired, x)
  {
    BaseExact(cbsd, inc, inquired, x);
    TakenExactly(cbsd, inc, x);
    CoversMembers(inquired, x);
  }

  lemma KeptExactly(cbsd: Cbsd, inc: Incumbents, y: nat, q: nat, x: int)
    requires y <= |inc.zones| && (y == |inc.zones| ==> q == 0) && (y < |inc.zones| ==> q <= |inc.zones[y].palIds|)
    ensures KeptForPal(cbsd, inc, y, q, x) <==> exists k :: k in LinksBefore(cbsd, inc, y, q) && Held(k) && In(x, k.freq)
  {
    forall k ensures k in LinksBefore(cbsd, inc, y, q) <==> LinkedBefore(cbsd, inc, y, q, k) {
      LinksBeforeExactly(cbsd, inc, y, q, k);
    }
  }

  lemma AllLinksBefore(cbsd: Cbsd, inc: Incumbents)
    ensures LinksBefore(cbsd, inc, |inc.zones|, 0) == LinksFor(cbsd, inc)
  {
    assert inc.zones[..|inc.zones|] == inc.zones;
    assert LinksFor(cbsd, inc) + [] == LinksFor(cbsd, inc);
  }

  lemma AvailableExactly(cbsd: Cbsd, inc: Incumbents, inquired: seq<Range>, x: int)
    ensures Available(cbsd, inc, inquired, x) <==> AvailableInFields(cbsd, inc, inquired, x)
  {
    BaseExact(cbsd, inc, inquired, x);
    BaseInFields(cbsd, inc, inquired, x);
    AllLinksBefore(cbsd, inc);
    KeptExactly(cbsd, inc, |inc.zones|, 0, x);
  }

  ghost predicate OfferedAs(channels: seq<Channel>, kind: Kind, x: int) {
    exists c :: c in channels && c.kind == kind && In(x, c.range)
  }

  lemma {:induction false} ClippedExact(inquired: seq<Range>, x: int)
    ensures Covers(Clipped(inquired), x) <==> Covers(inquired, x) && CBRS_LOW_HZ <= x < CBRS_HIGH_HZ
    ensures Proper(Clipped(inquired))
  {
    if inquired != [] {
      var n := |inquired| - 1;
      var q := inquired[n];
      var c := Range(Max(q.low, CBRS_LOW_HZ), Min(q.high, CBRS_HIGH_HZ));
      ClippedExact(inquired[..n], x);
      CoversConcat(inquired[..n], [q], x);
      CoversConcat(Clipped(inquired[..n]), [c], x);
      CoversOne(q, x);
      CoversOne(c, x);
      assert In(x, c) <==> In(x, q) && CBRS_LOW_HZ <= x < CBRS_HIGH_HZ;
      assert Clipped(inquired) == if c.high > c.low then Clipped(inquired[..n]) + [c] else Clipped(inquired[..n]);
      assert inquired == inquired[..n] + [q];
    }
  }

  lemma {:induction false} ExcludingExact(segments: seq<Range>, exclusions: seq<Range>, x: int)
    ensures Covers(Excluding(segments, exclusions), x) <==> Covers(segments, x) && !Covers(exclusions, x)
    ensures Proper(segments) ==> Proper(Excluding(segments, exclusions))
  {
    if exclusions != [] {
      var n := |exclusions| - 1;
      ExcludingExact(segments, exclusions[..n], x);
      SubtractedExact(Excluding(segments, exclusions[..n]), exclusions[n], x);
      CoversConcat(exclusions[..n], [exclusions[n]], x);
      CoversOne(exclusions[n], x);
      assert exclusions == exclusions[..n] + [exclusions[n]];
    }
  }

  lemma {:induction false} HeldRangesExact(links: seq<Link>, x: int)
    ensures Covers(HeldRanges(links), x) <==> exists k :: k in links && Held(k) && In(x, k.freq)
  {
    if links != [] {
      var n := |links| - 1;
      var k := links[n];
      HeldRangesExact(links[..n], x);
      CoversConcat(HeldRanges(links[..n]), [k.freq], x);
      CoversOne(k.freq, x);
      assert links == links[..n] + [k];
    }
  }

  lemma {:induction false} CutAllExact(segments: seq<Range>, x: int)
    ensures Covers(CutAll(segments), x) <==> Covers(segments, x) && CBRS_LOW_HZ <= x < CBRS_HIGH_HZ
  {
    if segments != [] {
      var n := |segments| - 1;
      var s := segments[n];
      CutAllExact(segments[..n], x);
      GridCutCovers(Max(s.low, CBRS_LOW_HZ), Min(s.high, CBRS_HIGH_HZ), CHANNEL_HZ, x);
      CoversConcat(CutAll(segments[..n]), GridCut(Max(s.low, CBRS_LOW_HZ), Min(s.high, CBRS_HIGH_HZ), CHANNEL_HZ), x);
      CoversConcat(segments[..n], [s], x);
      CoversOne(s, x);
      assert segments == segments[..n] + [s];
    }
  }

  lemma SameMembers<T>(a: seq<T>, b: seq<T>, x: T)
    requires multiset(a) == multiset(b)
    ensures x in a <==> x in b
  {
    assert x in a <==> x in multiset(a);
    assert x in b <==> x in multiset(b);
  }

  lemma AnswerMembers(pals: seq<Range>, cuts: seq<Range>, c: Channel)
    ensures c in SortChannels(Tagged(pals, PAL) + Tagged(cuts, GAA))
            <==> if c.kind == PAL then c.range in pals else c.range in cuts
  {
    var a, b := Tagged(pals, PAL), Tagged(cuts, GAA);
    SameMembers(SortChannels(a + b), a + b, c);
    assert c in a + b <==> c in a || c in b;
    if c.range in pals && c.kind == PAL {
      var i :| 0 <= i < |pals| && pals[i] == c.range;
      assert a[i] == c;
    }
    if c.range in cuts && c.kind == GAA {
      var i :| 0 <= i < |cuts| && cuts[i] == c.range;
      assert b[i] == c;
    }
  }

  lemma OfferedAsGaa(pals: seq<Range>, cuts: seq<Range>, x: int)
    ensures OfferedAs(SortChannels(Tagged(pals, PAL) + Tagged(cuts, GAA)), GAA, x) <==> Covers(cuts, x)
  {
    var channels := SortChannels(Tagged(pals, PAL) + Tagged(cuts, GAA));
    if OfferedAs(channels, GAA, x) {
      var c :| c in channels && c.kind == GAA && In(x, c.range);
      AnswerMembers(pals, cuts, c);
      var i :| 0 <= i < |cuts| && cuts[i] == c.range;
      assert In(x, cuts[i]);
    }
    if Covers(cuts, x) {
      var i :| 0 <= i < |cuts| && In(x, cuts[i]);
      AnswerMembers(pals, cuts, Channel(cuts[i], GAA));
    }
  }

  lemma BaseExact(cbsd: Cbsd, inc: Incumbents, inquired: seq<Range>, x: int)
    ensures Covers(BaseFor(cbsd, inc, inquired), x)
            <==> (Covers(inquired, x) && CBRS_LOW_HZ <= x < CBRS_HIGH_HZ && !Covers(IncumbentRanges(cbsd, inc), x))
    ensures Proper(BaseFor(cbsd, inc, inquired))
  {
    ClippedExact(inquired, x);
    ExcludingExact(Clipped(inquired), IncumbentRanges(cbsd, inc), x);
  }

  lemma FinalSegmentsExact(cbsd: Cbsd, inc: Incumbents, inquired: seq<Range>, x: int)
    requires cbsd.located ==> inc.exclusions.Some?
    ensures Covers(FinalSegments(cbsd, inc, inquired), x) <==> Available(cbsd, inc, inquired, x)
  {
    var links := LinksFor(cbsd, inc);
    BaseExact(cbsd, inc, inquired, x);
    ExcludingExact(BaseFor(cbsd, inc, inquired), HeldRanges(links), x);
    HeldRangesExact(links, x);
  }

  /** General access is offered on exactly the inquired CBRS frequencies that no exclusion zone, WISP,
      FSS or held PAL takes: nothing more, nothing less, whatever the order of the records. */
  lemma GaaExact(cbsd: Cbsd, inc: Incumbents, inquired: seq<Range>, x: int)
    ensures OfferedAs(Answer(cbsd, inc, inquired), GAA, x) <==> Available(cbsd, inc, inquired, x)
    ensures OfferedAs(Answer(cbsd, inc, inquired), GAA, x) <==> AvailableInFields(cbsd, inc, inquired, x)
  {
    AvailableExactly(cbsd, inc, inquired, x);
    if cbsd.located && inc.exclusions.None? {
      assert Answer(cbsd, inc, inquired) == [];
    } else {
      var base := BaseFor(cbsd, inc, inquired);
      var pals := PalOffers(cbsd, inc.pals, base, LinksFor(cbsd, inc));
      var cuts := CutAll(FinalSegments(cbsd, inc, inquired));
      FinalSegmentsExact(cbsd, inc, inquired, x);
      CutAllExact(FinalSegments(cbsd, inc, inquired), x);
      OfferedAsGaa(pals, cuts, x);
    }
  }

  /** Two bodies of records that exclude the same frequencies, in any order and with any
      repetitions, get the same general-access offer. */
  lemma GaaOrderFree(cbsd: Cbsd, a: Incumbents, b: Incumbents, inquired: seq<Range>, x: int)
    requires a.exclusions.Some? && b.exclusions.Some?
    requires multiset(a.exclusions.value) == multiset(b.exclusions.value)
    requires multiset(WispRanges(a.wisps)) == multiset(WispRanges(b.wisps))
    requires multiset(FssRanges(a.fsses)) == multiset(FssRanges(b.fsses))
    requires multiset(Links(cbsd, PalById(a.pals), a.zones)) == multiset(Links(cbsd, PalById(b.pals), b.zones))
    ensures OfferedAs(Answer(cbsd, a, inquired), GAA, x) <==> OfferedAs(Answer(cbsd, b, inquired), GAA, x)
  {
    GaaExact(cbsd, a, inquired, x);
    GaaExact(cbsd, b, inquired, x);
    var la, lb := Links(cbsd, PalById(a.pals), a.zones), Links(cbsd, PalById(b.pals), b.zones);
    forall k ensures k in la <==> k in lb { SameMembers(la, lb, k); }
    var ia, ib := IncumbentRanges(cbsd, a), IncumbentRanges(cbsd, b);
    assert multiset(ia) == multiset(ib);
    forall r ensures r in ia <==> r in ib { SameMembers(ia, ib, r); }
    if Covers(ia, x) {
      var i :| 0 <= i < |ia| && In(x, ia[i]);
      assert ia[i] in ib;
    }
    if Covers(ib, x) {
      var i :| 0 <= i < |ib| && In(x, ib[i]);
      assert ib[i] in ia;
    }
  }

  lemma {:induction false} PalOffersHeld(cbsd: Cbsd, pals: seq<Pal>, base: seq<Range>, links: seq<Link>)
    ensures forall r :: r in PalOffers(cbsd, pals, base, links) ==>
                          exists k :: k in links && Usable(cbsd, pals, k) && k.freq == r
  {
    if links != [] {
      var n := |links| - 1;
      PalOffersHeld(cbsd, pals, base, links[..n]);
      forall r | r in PalOffers(cbsd, pals, base, links)
        ensures exists k :: k in links && Usable(cbsd, pals, k) && k.freq == r
      {
        if r in PalOffers(cbsd, pals, base, links[..n]) {
          var k :| k in links[..n] && Usable(cbsd, pals, k) && k.freq == r;
          assert k in links;
        } else {
          assert links[n] in links;
        }
      }
    }
  }

  /** No frequency of a PAL channel in the answer is also offered for general access. */
  lemma PalAndGaaApart(cbsd: Cbsd, inc: Incumbents, inquired: seq<Range>, p: Channel, x: int)
    requires p in Answer(cbsd, inc, inquired) && p.kind == PAL && In(x, p.range)
    ensures !OfferedAs(Answer(cbsd, inc, inquired), GAA, x)
  {
    var base := BaseFor(cbsd, inc, inquired);
    var links := LinksFor(cbsd, inc);
    var pals := PalOffers(cbsd, inc.pals, base, links);
    AnswerMembers(pals, CutAll(FinalSegments(cbsd, inc, inquired)), p);
    PalOffersHeld(cbsd, inc.pals, base, links);
    GaaExact(cbsd, inc, inquired, x);
  }

  /** Frequency x is still open when link n is reached. */
  ghost predicate OpenAt(base: seq<Range>, links: seq<Link>, n: nat, x: int)
    requires n <= |links|
  {
    Covers(base, x) && forall k :: k in links[..n] && Held(k) ==> !In(x, k.freq)
  }

  ghost predicate OffersLink(cbsd: Cbsd, pals: seq<Pal>, base: seq<Range>, links: seq<Link>, n: nat)
    requires n < |links|
  {
    Usable(cbsd, pals, links[n]) && exists x :: In(x, links[n].freq) && OpenAt(base, links, n, x)
  }

  ghost predicate OfferedBefore(cbsd: Cbsd, pals: seq<Pal>, base: seq<Range>, links: seq<Link>, n: nat, r: Range)
    requires n <= |links|
  {
    exists m :: 0 <= m < n && links[m].freq == r && OffersLink(cbsd, pals, base, links, m)
  }

  lemma TouchesExact(base: seq<Range>, links: seq<Link>, n: nat)
    requires Proper(base) && n < |links| && links[n].freq.low < links[n].freq.high
    ensures Touches(SegmentsAt(base, links[..n]), links[n].freq)
            <==> exists x :: In(x, links[n].freq) && OpenAt(base, links, n, x)
  {
    var segs := SegmentsAt(base, links[..n]);
    forall x ensures Covers(segs, x) <==> OpenAt(base, links, n, x) {
      ExcludingExact(base, HeldRanges(links[..n]), x);
      HeldRangesExact(links[..n], x);
    }
    ExcludingExact(base, HeldRanges(links[..n]), 0);
    if Touches(segs, links[n].freq) {
      var i :| 0 <= i < |segs| && Overlaps(segs[i], links[n].freq);
      OverlapIsSharedFrequency(segs[i], links[n].freq);
      var x :| In(x, segs[i]) && In(x, links[n].freq);
      assert Covers(segs, x);
    }
    if exists x :: In(x, links[n].freq) && OpenAt(base, links, n, x) {
      var x :| In(x, links[n].freq) && OpenAt(base, links, n, x);
      assert Covers(segs, x);
      var i :| 0 <= i < |segs| && In(x, segs[i]);
      assert Overlaps(segs[i], links[n].freq);
    }
  }

  lemma PalOffersStep(cbsd: Cbsd, pals: seq<Pal>, base: seq<Range>, links: seq<Link>, k: Link, r: Range)
    ensures r in PalOffers(cbsd, pals, base, links + [k])
            <==> (r in PalOffers(cbsd, pals, base, links)
                  || (r == k.freq && Usable(cbsd, pals, k) && Touches(SegmentsAt(base, links), k.freq)))
  {
    ServedStep(cbsd, pals, base, links, k);
  }

  lemma OfferedStep(cbsd: Cbsd, pals: seq<Pal>, base: seq<Range>, links: seq<Link>, n: nat, r: Range)
    requires 0 < n <= |links|
    ensures OfferedBefore(cbsd, pals, base, links, n, r)
            <==> (OfferedBefore(cbsd, pals, base, links, n - 1, r)
                  || (links[n - 1].freq == r && OffersLink(cbsd, pals, base, links, n - 1)))
  {
  }

  /** What link n - 1 adds to the offers. */
  lemma PalOffersAt(cbsd: Cbsd, pals: seq<Pal>, base: seq<Range>, links: seq<Link>, n: nat, r: Range)
    requires Proper(base) && 0 < n <= |links| && links[n - 1].freq.low < links[n - 1].freq.high
    ensures r in PalOffers(cbsd, pals, base, links[..n])
            <==> (r in PalOffers(cbsd, pals, base, links[..n - 1])
                  || (links[n - 1].freq == r && OffersLink(cbsd, pals, base, links, n - 1)))
  {
    TouchesExact(base, links, n - 1);
    assert links[..n] == links[..n - 1] + [links[n - 1]];
    PalOffersStep(cbsd, pals, base, links[..n - 1], links[n - 1], r);
  }

  ghost predicate ProperLinks(links: seq<Link>) {
    forall i :: 0 <= i < |links| ==> links[i].freq.low < links[i].freq.high
  }

  lemma {:induction false} PalOffersExact(cbsd: Cbsd, pals: seq<Pal>, base: seq<Range>, links: seq<Link>, n: nat, r: Range)
    requires Proper(base) && n <= |links| && ProperLinks(links)
    ensures r in PalOffers(cbsd, pals, base, links[..n]) <==> OfferedBefore(cbsd, pals, base, links, n, r)
  {
    if n > 0 {
      PalOffersExact(cbsd, pals, base, links, n - 1, r);
      PalOffersAt(cbsd, pals, base, links, n, r);
      OfferedStep(cbsd, pals, base, links, n, r);
    }
  }

  /** A PAL channel is in the answer exactly when the CBSD's user owns it, the CBSD is in a cluster
      of it, and some inquired frequency of it was still open at its turn. */
  lemma PalExact(cbsd: Cbsd, inc: Incumbents, inquired: seq<Range>, r: Range)
    requires cbsd.located ==> inc.exclusions.Some?
    requires forall k :: k in LinksFor(cbsd, inc) ==> k.freq.low < k.freq.high
    ensures Channel(r, PAL) in Answer(cbsd, inc, inquired)
            <==> OfferedBefore(cbsd, inc.pals, BaseFor(cbsd, inc, inquired), LinksFor(cbsd, inc), |LinksFor(cbsd, inc)|, r)
  {
    var links := LinksFor(cbsd, inc);
    var base := BaseFor(cbsd, inc, inquired);
    assert links[..|links|] == links;
    BaseExact(cbsd, inc, inquired, 0);
    PalOffersExact(cbsd, inc.pals, base, links, |links|, r);
    AnswerMembers(PalOffers(cbsd, inc.pals, base, links), CutAll(FinalSegments(cbsd, inc, inquired)), Channel(r, PAL));
  }

  /** A PAL record of this id belongs to the CBSD's user. */
  predicate Licensed(cbsd: Cbsd, inc: Incumbents, palId: string) {
    palId != "" && exists p :: p in inc.pals && p.palId == palId && p.userId == cbsd.userId
  }

  /** Entry q of zone y offers the CBSD this range: its user owns the PAL, it is in the cluster, and some
      frequency of the PAL is open and not kept by an earlier entry. */
  ghost predicate OfferedByEntry(cbsd: Cbsd, inc: Incumbents, inquired: seq<Range>, y: nat, q: nat, r: Range) {
    && (exists k :: IsLink(cbsd, inc, y, q, k) && k.freq == r && k.inCluster && Licensed(cbsd, inc, k.palId))
    && exists x :: r.low <= x < r.high && OpenInFields(cbsd, inc, inquired, x) && !KeptForPal(cbsd, inc, y, q, x)
  }

  lemma LicensedExactly(cbsd: Cbsd, inc: Incumbents, palId: string)
    ensures Owns(cbsd, inc.pals, palId) <==> Licensed(cbsd, inc, palId)
  {
    if Owns(cbsd, inc.pals, palId) {
      var i :| 0 <= i < |inc.pals| && inc.pals[i].palId == palId && inc.pals[i].userId == cbsd.userId;
      assert inc.pals[i] in inc.pals;
    }
    if Licensed(cbsd, inc, palId) {
      var p :| p in inc.pals && p.palId == palId && p.userId == cbsd.userId;
      var i :| 0 <= i < |inc.pals| && inc.pals[i] == p;
    }
  }

  /** Link n of the walk is the one of entry q of zone y. */
  ghost predicate StandsAt(cbsd: Cbsd, inc: Incumbents, links: seq<Link>, n: nat, y: nat, q: nat)
    requires n < |links|
  {
    && y < |inc.zones| && q < |inc.zones[y].palIds| && IsLink(cbsd, inc, y, q, links[n])
    && n == |LinksBefore(cbsd, inc, y, q)| && links[..n] == LinksBefore(cbsd, inc, y, q)
  }

  lemma PrefixOfPrefix<T>(a: seq<T>, b: seq<T>, c: seq<T>)
    requires a <= b && b <= c
    ensures a <= c && c[..|a|] == a
  {
  }

  lemma {:induction false} LinksBeforeIsPrefix(cbsd: Cbsd, inc: Incumbents, y: nat, q: nat, z: nat)
    requires y < |inc.zones| && q <= |inc.zones[y].palIds|
    requires z == y || z == y + 1
    ensures z == y ==> LinksBefore(cbsd, inc, y, q) <= LinksBefore(cbsd, inc, y, |inc.zones[y].palIds|)
    ensures z == y + 1 ==> LinksBefore(cbsd, inc, y, q) <= LinksBefore(cbsd, inc, z, 0)
    decreases z, |inc.zones[y].palIds| - q
  {
    if z == y + 1 {
      LinksBeforeZone(cbsd, inc, y);
      LinksBeforeIsPrefix(cbsd, inc, y, q, y);
    } else if q < |inc.zones[y].palIds| {
      LinksBeforeNext(cbsd, inc, y, q);
      LinksBeforeIsPrefix(cbsd, inc, y, q + 1, y);
      PrefixOfPrefix(LinksBefore(cbsd, inc, y, q), LinksBefore(cbsd, inc, y, q + 1), LinksBefore(cbsd, inc, y, |inc.zones[y].palIds|));
    }
  }

  lemma {:induction false} ZonesArePrefixes(cbsd: Cbsd, inc: Incumbents, y: nat)
    requires y <= |inc.zones|
    ensures LinksBefore(cbsd, inc, y, 0) <= LinksFor(cbsd, inc)
    decreases |inc.zones| - y
  {
    if y < |inc.zones| {
      LinksBeforeIsPrefix(cbsd, inc, y, 0, y + 1);
      ZonesArePrefixes(cbsd, inc, y + 1);
      PrefixOfPrefix(LinksBefore(cbsd, inc, y, 0), LinksBefore(cbsd, inc, y + 1, 0), LinksFor(cbsd, inc));
    } else {
      AllLinksBefore(cbsd, inc);
    }
  }

  lemma EntryComesNext(cbsd: Cbsd, inc: Incumbents, y: nat, q: nat, k: Link)
    requires IsLink(cbsd, inc, y, q, k)
    ensures LinksBefore(cbsd, inc, y, q + 1) == LinksBefore(cbsd, inc, y, q) + [k]
  {
    LinkOfExactly(cbsd, inc, y, q, k);
    LinksBeforeNext(cbsd, inc, y, q);
  }

  lemma EntriesArePrefixes(cbsd: Cbsd, inc: Incumbents, y: nat, q: nat)
    requires y < |inc.zones| && q <= |inc.zones[y].palIds|
    ensures LinksBefore(cbsd, inc, y, q) <= LinksFor(cbsd, inc)
  {
    LinksBeforeIsPrefix(cbsd, inc, y, q, y + 1);
    ZonesArePrefixes(cbsd, inc, y + 1);
    PrefixOfPrefix(LinksBefore(cbsd, inc, y, q), LinksBefore(cbsd, inc, y + 1, 0), LinksFor(cbsd, inc));
  }

  lemma AtOf<T>(front: seq<T>, x: T, all: seq<T>)
    requires front + [x] <= all
    ensures |front| < |all| && all[|front|] == x && all[..|front|] == front
  {
    assert (front + [x])[|front|] == x;
    assert all[..|front| + 1] == front + [x];
    assert all[..|front|] == all[..|front| + 1][..|front|];
  }

  /** The link of an entry stands in the walk behind those of the earlier entries. */
  lemma EntryStands(cbsd: Cbsd, inc: Incumbents, y: nat, q: nat, k: Link) returns (n: nat)
    requires IsLink(cbsd, inc, y, q, k)
    ensures n < |LinksFor(cbsd, inc)| && LinksFor(cbsd, inc)[n] == k && StandsAt(cbsd, inc, LinksFor(cbsd, inc), n, y, q)
  {
    EntryComesNext(cbsd, inc, y, q, k);
    EntriesArePrefixes(cbsd, inc, y, q + 1);
    n := |LinksBefore(cbsd, inc, y, q)|;
    AtOf(LinksBefore(cbsd, inc, y, q), k, LinksFor(cbsd, inc));
  }

  lemma StandsInMore(cbsd: Cbsd, inc: Incumbents, links: seq<Link>, more: seq<Link>, n: nat, y: nat, q: nat)
    requires n < |links| && StandsAt(cbsd, inc, links, n, y, q)
    ensures StandsAt(cbsd, inc, links + more, n, y, q)
  {
    assert (links + more)[n] == links[n] && (links + more)[..n] == links[..n];
  }

  lemma StandsFurther(cbsd: Cbsd, inc: Incumbents, y: nat, q: nat, n: nat, z: nat, p: nat)
    requires y < |inc.zones| && q < |inc.zones[y].palIds| && n < |LinksBefore(cbsd, inc, y, q)|
    requires StandsAt(cbsd, inc, LinksBefore(cbsd, inc, y, q), n, z, p)
    ensures n < |LinksBefore(cbsd, inc, y, q + 1)| && StandsAt(cbsd, inc, LinksBefore(cbsd, inc, y, q + 1), n, z, p)
  {
    LinksBeforeNext(cbsd, inc, y, q);
    var more := if inc.zones[y].isPpa then LinkOf(cbsd, PalById(inc.pals), inc.zones[y], inc.zones[y].palIds[q]) else [];
    StandsInMore(cbsd, inc, LinksBefore(cbsd, inc, y, q), more, n, z, p);
  }

  lemma LastStands(cbsd: Cbsd, inc: Incumbents, y: nat, q: nat)
    requires y < |inc.zones| && q < |inc.zones[y].palIds| && LinksBefore(cbsd, inc, y, q + 1) != LinksBefore(cbsd, inc, y, q)
    ensures var n := |LinksBefore(cbsd, inc, y, q)|;
            n + 1 == |LinksBefore(cbsd, inc, y, q + 1)| && StandsAt(cbsd, inc, LinksBefore(cbsd, inc, y, q + 1), n, y, q)
  {
    var link := LinkOf(cbsd, PalById(inc.pals), inc.zones[y], inc.zones[y].palIds[q]);
    LinksBeforeNext(cbsd, inc, y, q);
    assert LinksBefore(cbsd, inc, y, q) + [] == LinksBefore(cbsd, inc, y, q);
    LinkOfExactly(cbsd, inc, y, q, link[0]);
    assert link == [link[0]];
    AtOf(LinksBefore(cbsd, inc, y, q), link[0], LinksBefore(cbsd, inc, y, q + 1));
  }

  /** Every link of the walk up to an entry stands for some entry. */
  lemma {:induction false} LinkStands(cbsd: Cbsd, inc: Incumbents, y: nat, q: nat, n: nat) returns (z: nat, p: nat)
    requires y <= |inc.zones| && (y == |inc.zones| ==> q == 0) && (y < |inc.zones| ==> q <= |inc.zones[y].palIds|)
    requires n < |LinksBefore(cbsd, inc, y, q)|
    ensures StandsAt(cbsd, inc, LinksBefore(cbsd, inc, y, q), n, z, p)
    decreases y, q
  {
    if q > 0 {
      if n < |LinksBefore(cbsd, inc, y, q - 1)| {
        z, p := LinkStands(cbsd, inc, y, q - 1, n);
        StandsFurther(cbsd, inc, y, q - 1, n, z, p);
      } else {
        z, p := y, q - 1;
        LastStands(cbsd, inc, y, q - 1);
      }
    } else {
      LinksBeforeZone(cbsd, inc, y - 1);
      z, p := LinkStands(cbsd, inc, y - 1, |inc.zones[y - 1].palIds|, n);
    }
  }

  lemma OffersLinkExactly(cbsd: Cbsd, inc: Incumbents, inquired: seq<Range>, n: nat, y: nat, q: nat)
    requires n < |LinksFor(cbsd, inc)| && StandsAt(cbsd, inc, LinksFor(cbsd, inc), n, y, q)
    ensures OffersLink(cbsd, inc.pals, BaseFor(cbsd, inc, inquired), LinksFor(cbsd, inc), n)
            <==> OfferedByEntry(cbsd, inc, inquired, y, q, LinksFor(cbsd, inc)[n].freq)
  {
    var links, base := LinksFor(cbsd, inc), BaseFor(cbsd, inc, inquired);
    forall x ensures OpenAt(base, links, n, x) <==> OpenInFields(cbsd, inc, inquired, x) && !KeptForPal(cbsd, inc, y, q, x) {
      BaseInFields(cbsd, inc, inquired, x);
      KeptExactly(cbsd, inc, y, q, x);
    }
    LicensedExactly(cbsd, inc, links[n].palId);
    forall k | IsLink(cbsd, inc, y, q, k) ensures k == links[n] {
      LinkOfExactly(cbsd, inc, y, q, k);
      LinkOfExactly(cbsd, inc, y, q, links[n]);
    }
  }

  /** A channel of the band between two neighbouring lines of the 10 MHz grid. */
  ghost predicate WithinGrid(r: Range) {
    && 3_550_000_000 <= r.low < r.high <= 3_700_000_000
    && forall y :: r.low < y < r.high ==> !OnGrid(y, 10_000_000)
  }

  lemma {:induction false} CutAllWithinGrid(segments: seq<Range>)
    ensures forall r :: r in CutAll(segments) ==> WithinGrid(r)
  {
    if segments != [] {
      var s := segments[|segments| - 1];
      var low, high := Max(s.low, CBRS_LOW_HZ), Min(s.high, CBRS_HIGH_HZ);
      CutAllWithinGrid(segments[..|segments| - 1]);
      if low < high {
        GridCutIsGridCut(low, high, CHANNEL_HZ);
        GridCutInside(low, high, CHANNEL_HZ);
      }
    }
  }

  lemma AnswerInFields(cbsd: Cbsd, inc: Incumbents, inquired: seq<Range>)
    ensures forall x :: OfferedAs(Answer(cbsd, inc, inquired), GAA, x) <==> AvailableInFields(cbsd, inc, inquired, x)
    ensures (cbsd.located ==> inc.exclusions.Some?) && (forall k :: Linked(cbsd, inc, k) ==> k.freq.low < k.freq.high) ==>
              forall r :: Channel(r, PAL) in Answer(cbsd, inc, inquired)
                          <==> exists y: nat, q: nat :: OfferedByEntry(cbsd, inc, inquired, y, q, r)
    ensures Ascending(Answer(cbsd, inc, inquired))
    ensures forall c :: c in Answer(cbsd, inc, inquired) && c.kind == GAA ==> WithinGrid(c.range)
  {
    if !(cbsd.located && inc.exclusions.None?) {
      var pals, cuts := PalOffers(cbsd, inc.pals, BaseFor(cbsd, inc, inquired), LinksFor(cbsd, inc)), CutAll(FinalSegments(cbsd, inc, inquired));
      forall c | c in Answer(cbsd, inc, inquired) && c.kind == GAA ensures WithinGrid(c.range) {
        AnswerMembers(pals, cuts, c);
        CutAllWithinGrid(FinalSegments(cbsd, inc, inquired));
      }
    }
    forall x ensures OfferedAs(Answer(cbsd, inc, inquired), GAA, x) <==> AvailableInFields(cbsd, inc, inquired, x) {
      GaaExact(cbsd, inc, inquired, x);
    }
    if (cbsd.located ==> inc.exclusions.Some?) && forall k :: Linked(cbsd, inc, k) ==> k.freq.low < k.freq.high {
      forall r
        ensures Channel(r, PAL) in Answer(cbsd, inc, inquired) <==> exists y: nat, q: nat :: OfferedByEntry(cbsd, inc, inquired, y, q, r)
      {
        PalExactInFields(cbsd, inc, inquired, r);
      }
    }
    AnswerAscends(cbsd, inc, inquired);
  }

  /** The same in the fields of the records: some entry of some zone offers the channel. */
  lemma PalExactInFields(cbsd: Cbsd, inc: Incumbents, inquired: seq<Range>, r: Range)
    requires cbsd.located ==> inc.exclusions.Some?
    requires forall k :: Linked(cbsd, inc, k) ==> k.freq.low < k.freq.high
    ensures Channel(r, PAL) in Answer(cbsd, inc, inquired) <==> exists y: nat, q: nat :: OfferedByEntry(cbsd, inc, inquired, y, q, r)
  {
    var links, base := LinksFor(cbsd, inc), BaseFor(cbsd, inc, inquired);
    forall k | k in links ensures k.freq.low < k.freq.high {
      LinksExactly(cbsd, inc, k);
    }
    PalExact(cbsd, inc, inquired, r);
    if OfferedBefore(cbsd, inc.pals, base, links, |links|, r) {
      var n :| 0 <= n < |links| && links[n].freq == r && OffersLink(cbsd, inc.pals, base, links, n);
      AllLinksBefore(cbsd, inc);
      var y, q := LinkStands(cbsd, inc, |inc.zones|, 0, n);
      OffersLinkExactly(cbsd, inc, inquired, n, y, q);
    }
    if exists y: nat, q: nat :: OfferedByEntry(cbsd, inc, inquired, y, q, r) {
      var y: nat, q: nat :| OfferedByEntry(cbsd, inc, inquired, y, q, r);
      var k :| IsLink(cbsd, inc, y, q, k) && k.freq == r && k.inCluster && Licensed(cbsd, inc, k.palId);
      var n := EntryStands(cbsd, inc, y, q, k);
      OffersLinkExactly(cbsd, inc, inquired, n, y, q);
    }
  }

  // --------------------------------------------------------- disjointness

  ghost predicate GaaApart(a: Channel, b: Channel) {
    a.kind == GAA && b.kind == GAA ==> Apart(a.range, b.range)
  }

  ghost predicate AllGaaApart(s: seq<Channel>) {
    forall i, j :: 0 <= i < j < |s| ==> GaaApart(s[i], s[j])
  }

  lemma {:induction false} InsertKeepsApart(c: Channel, s: seq<Channel>)
    requires AllGaaApart(s) && forall i :: 0 <= i < |s| ==> GaaApart(c, s[i])
    ensures AllGaaApart(Insert(c, s))
  {
    if s != [] && !KeyLeq(c, s[0]) {
      InsertKeepsApart(c, s[1..]);
      var r := Insert(c, s[1..]);
      forall i | 0 <= i < |r| ensures GaaApart(s[0], r[i]) {
        assert r[i] in multiset(r);
        assert r[i] == c || r[i] in s[1..];
      }
    }
  }

  lemma {:induction false} SortKeepsApart(s: seq<Channel>)
    requires AllGaaApart(s)
    ensures AllGaaApart(SortChannels(s))
  {
    if s != [] {
      SortKeepsApart(s[1..]);
      var r := SortChannels(s[1..]);
      forall i | 0 <= i < |r| ensures GaaApart(s[0], r[i]) {
        SameMembers(r, s[1..], r[i]);
      }
      InsertKeepsApart(s[0], r);
    }
  }

  ghost predicate Ordered(s: seq<Range>) {
    forall i :: 0 <= i < |s| ==> s[i].low <= s[i].high
  }

  lemma {:induction false} ClippedApart(inquired: seq<Range>)
    requires PairwiseApart(inquired)
    ensures PairwiseApart(Clipped(inquired))
    ensures forall k :: 0 <= k < |Clipped(inquired)| ==>
                          exists i :: 0 <= i < |inquired| && inquired[i].low <= Clipped(inquired)[k].low
                                   && Clipped(inquired)[k].high <= inquired[i].high
  {
    if inquired != [] {
      var n := |inquired| - 1;
      ClippedApart(inquired[..n]);
      var head := Clipped(inquired[..n]);
      forall k | 0 <= k < |Clipped(inquired)|
        ensures exists i :: 0 <= i < |inquired| && inquired[i].low <= Clipped(inquired)[k].low
                         && Clipped(inquired)[k].high <= inquired[i].high
        ensures k < |head| && |head| < |Clipped(inquired)| ==> Apart(head[k], Clipped(inquired)[|head|])
      {
        if k < |head| {
          var i :| 0 <= i < n && inquired[..n][i].low <= head[k].low && head[k].high <= inquired[..n][i].high;
          assert Apart(inquired[i], inquired[n]);
        }
      }
    }
  }

  lemma {:induction false} ExcludingApart(segments: seq<Range>, exclusions: seq<Range>)
    requires PairwiseApart(segments) && Ordered(exclusions)
    ensures PairwiseApart(Excluding(segments, exclusions))
  {
    if exclusions != [] {
      var n := |exclusions| - 1;
      ExcludingApart(segments, exclusions[..n]);
      SubtractedApart(Excluding(segments, exclusions[..n]), exclusions[n]);
    }
  }

  ghost predicate InsideSome(r: Range, segments: seq<Range>) {
    exists i :: 0 <= i < |segments| && segments[i].low <= r.low && r.high <= segments[i].high
  }

  lemma InsideMore(r: Range, front: seq<Range>, s: Range)
    requires InsideSome(r, front) || (s.low <= r.low && r.high <= s.high)
    ensures InsideSome(r, front + [s])
  {
    if InsideSome(r, front) {
      var i :| 0 <= i < |front| && front[i].low <= r.low && r.high <= front[i].high;
      assert (front + [s])[i] == front[i];
    } else {
      assert (front + [s])[|front|] == s;
    }
  }

  lemma InsideApart(r: Range, front: seq<Range>, s: Range, t: Range)
    requires InsideSome(r, front) && PairwiseApart(front + [s]) && s.low <= t.low && t.high <= s.high
    ensures Apart(r, t)
  {
    var i :| 0 <= i < |front| && front[i].low <= r.low && r.high <= front[i].high;
    assert (front + [s])[i] == front[i] && (front + [s])[|front|] == s;
  }

  lemma {:induction false} CutAllApart(segments: seq<Range>)
    requires PairwiseApart(segments)
    ensures PairwiseApart(CutAll(segments))
    ensures forall k :: 0 <= k < |CutAll(segments)| ==> InsideSome(CutAll(segments)[k], segments)
  {
    if segments != [] {
      var front, s := segments[..|segments| - 1], segments[|segments| - 1];
      var lo, hi := Max(s.low, CBRS_LOW_HZ), Min(s.high, CBRS_HIGH_HZ);
      assert segments == front + [s];
      CutAllApart(front);
      GridCutInside(lo, hi, CHANNEL_HZ);
      CutJoinApart(front, s, CutAll(front), GridCut(lo, hi, CHANNEL_HZ));
    }
  }

  lemma CutJoinApart(front: seq<Range>, s: Range, head: seq<Range>, tail: seq<Range>)
    requires PairwiseApart(front + [s]) && PairwiseApart(head) && PairwiseApart(tail)
    requires forall k :: 0 <= k < |head| ==> InsideSome(head[k], front)
    requires forall r :: r in tail ==> s.low <= r.low && r.high <= s.high
    ensures PairwiseApart(head + tail)
    ensures forall k :: 0 <= k < |head + tail| ==> InsideSome((head + tail)[k], front + [s])
  {
    forall k | 0 <= k < |head + tail| ensures InsideSome((head + tail)[k], front + [s]) {
      if k >= |head| {
        assert tail[k - |head|] in tail;
      }
      InsideMore((head + tail)[k], front, s);
    }
    forall i, j | 0 <= i < j < |head + tail| ensures Apart((head + tail)[i], (head + tail)[j]) {
      if i < |head| <= j {
        assert tail[j - |head|] in tail;
        InsideApart(head[i], front, s, tail[j - |head|]);
      }
    }
  }

  lemma {:induction false} OrderedHeld(links: seq<Link>)
    requires forall k :: k in links ==> k.freq.low <= k.freq.high
    ensures Ordered(HeldRanges(links))
  {
    if links != [] {
      OrderedHeld(links[..|links| - 1]);
    }
  }

  /** Disjoint questions and ordered exclusions give disjoint general-access channels. */
  lemma GaaChannelsApart(cbsd: Cbsd, inc: Incumbents, inquired: seq<Range>)
    requires PairwiseApart(inquired)
    requires Ordered(IncumbentRanges(cbsd, inc))
    requires forall k :: k in LinksFor(cbsd, inc) ==> k.freq.low <= k.freq.high
    ensures AllGaaApart(Answer(cbsd, inc, inquired))
  {
    if !(cbsd.located && inc.exclusions.None?) {
      var base := BaseFor(cbsd, inc, inquired);
      var links := LinksFor(cbsd, inc);
      ClippedApart(inquired);
      ExcludingApart(Clipped(inquired), IncumbentRanges(cbsd, inc));
      OrderedHeld(links);
      ExcludingApart(base, HeldRanges(links));
      CutAllApart(FinalSegments(cbsd, inc, inquired));
      SortKeepsApart(Tagged(PalOffers(cbsd, inc.pals, base, links), PAL) +
                     Tagged(CutAll(FinalSegments(cbsd, inc, inquired)), GAA));
    }
  }

  // ------------------------------------------------------------------- order

  ghost predicate Ascending(s: seq<Channel>) {
    forall i, j :: 0 <= i < j < |s| ==> KeyLeq(s[i], s[j])
  }

  lemma {:induction false} InsertAscends(c: Channel, s: seq<Channel>)
    requires Ascending(s)
    ensures Ascending(Insert(c, s))
  {
    if s != [] && !KeyLeq(c, s[0]) {
      InsertAscends(c, s[1..]);
      var r := Insert(c, s[1..]);
      forall i | 0 <= i < |r| ensures KeyLeq(s[0], r[i]) {
        assert r[i] in multiset(r);
        assert r[i] == c || r[i] in s[1..];
      }
    }
  }

  lemma {:induction false} SortAscends(s: seq<Channel>)
    ensures Ascending(SortChannels(s))
  {
    if s != [] {
      SortAscends(s[1..]);
      InsertAscends(s[0], SortChannels(s[1..]));
    }
  }

  /** Channels come in order of low, then high frequency. */
  lemma AnswerAscends(cbsd: Cbsd, inc: Incumbents, inquired: seq<Range>)
    ensures Ascending(Answer(cbsd, inc, inquired))
  {
    if !(cbsd.located && inc.exclusions.None?) {
      var base := BaseFor(cbsd, inc, inquired);
      SortAscends(Tagged(PalOffers(cbsd, inc.pals, base, LinksFor(cbsd, inc)), PAL) +
                  Tagged(CutAll(FinalSegments(cbsd, inc, inquired)), GAA));
    }
  }

  // --------------------------------------------------- an exclusion upside down

  const MHZ: int := 1_000_000
  const ASKED: Range := Range(3_550 * MHZ, 3_580 * MHZ)
  const UPSIDE_DOWN: Range := Range(3_570 * MHZ, 3_560 * MHZ)
  const TWICE: Channel := Channel(Range(3_560 * MHZ, 3_570 * MHZ), GAA)
  const ASKER: Cbsd := Cbsd("c", "u", true)
  const INVERTED: Incumbents := Incumbents(Some([UPSIDE_DOWN]), [], [], [], [])

  lemma InvertedLeaves()
    ensures FinalSegments(ASKER, INVERTED, [ASKED]) == [Range(3_550 * MHZ, 3_570 * MHZ), Range(3_560 * MHZ, 3_580 * MHZ)]
  {
    assert [ASKED][..0] == [] && [UPSIDE_DOWN][..0] == [];
    assert Clipped([ASKED]) == Clipped([ASKED][..0]) + [ASKED];
    assert IncumbentRanges(ASKER, INVERTED) == [UPSIDE_DOWN];
    assert Excluding([ASKED], [UPSIDE_DOWN]) == Subtracted(Excluding([ASKED], [UPSIDE_DOWN][..0]), UPSIDE_DOWN);
    assert [] + [ASKED] == [ASKED];
    SubtractedLast([], ASKED, UPSIDE_DOWN);
    InvertedSplit(ASKED, UPSIDE_DOWN);
  }

  lemma TwoChannels(low: int)
    requires low == 3_550 * MHZ || low == 3_560 * MHZ
    ensures GridCut(low, low + 2 * CHANNEL_HZ, CHANNEL_HZ) == [Range(low, low + CHANNEL_HZ), Range(low + CHANNEL_HZ, low + 2 * CHANNEL_HZ)]
  {
    assert low % CHANNEL_HZ == 0 && (low + CHANNEL_HZ) % CHANNEL_HZ == 0;
    assert GridCut(low + 2 * CHANNEL_HZ, low + 2 * CHANNEL_HZ, CHANNEL_HZ) == [];
    assert GridCut(low + CHANNEL_HZ, low + 2 * CHANNEL_HZ, CHANNEL_HZ) == [Range(low + CHANNEL_HZ, low + 2 * CHANNEL_HZ)];
  }

  lemma InvertedCut()
    ensures CutAll(FinalSegments(ASKER, INVERTED, [ASKED])) ==
            [Range(3_550 * MHZ, 3_560 * MHZ), TWICE.range, TWICE.range, Range(3_570 * MHZ, 3_580 * MHZ)]
  {
    var a, b := Range(3_550 * MHZ, 3_570 * MHZ), Range(3_560 * MHZ, 3_580 * MHZ);
    InvertedLeaves();
    TwoChannels(a.low);
    TwoChannels(b.low);
    assert [a, b][..1] == [a] && [a][..0] == [];
    assert CutAll([a, b]) == CutAll([a, b][..1]) + GridCut(b.low, b.high, CHANNEL_HZ);
    assert CutAll([a]) == CutAll([a][..0]) + GridCut(a.low, a.high, CHANNEL_HZ);
  }

  lemma {:induction false} TwoCopies(s: seq<Channel>, c: Channel)
    requires multiset(s)[c] >= 2
    ensures exists i, j :: 0 <= i < j < |s| && s[i] == c && s[j] == c
  {
    assert s == [s[0]] + s[1..];
    if s[0] == c {
      assert multiset(s[1..])[c] >= 1;
      assert c in s[1..];
      var j :| 0 <= j < |s[1..]| && s[1..][j] == c;
      assert s[0] == c && s[j + 1] == c;
    } else {
      TwoCopies(s[1..], c);
      var i, j :| 0 <= i < j < |s[1..]| && s[1..][i] == c && s[1..][j] == c;
      assert s[i + 1] == c && s[j + 1] == c;
    }
  }

  lemma InvertedAnswer()
    ensures multiset(Answer(ASKER, INVERTED, [ASKED])) == multiset(Tagged(CutAll(FinalSegments(ASKER, INVERTED, [ASKED])), GAA))
  {
    assert LinksFor(ASKER, INVERTED) == [];
    var cuts := CutAll(FinalSegments(ASKER, INVERTED, [ASKED]));
    var offers := PalOffers(ASKER, [], BaseFor(ASKER, INVERTED, [ASKED]), []);
    assert Tagged(offers, PAL) + Tagged(cuts, GAA) == Tagged(cuts, GAA);
  }

  lemma TaggedTwice(a: Range, b: Range, c: Range)
    ensures multiset(Tagged([a, b, b, c], GAA))[Channel(b, GAA)] >= 2
  {
    var two := [Channel(b, GAA), Channel(b, GAA)];
    assert Tagged([a, b, b, c], GAA) == [Channel(a, GAA)] + two + [Channel(c, GAA)];
  }

  lemma TwiceIsNotApart(s: seq<Channel>)
    requires multiset(s)[TWICE] >= 2
    ensures !AllGaaApart(s)
  {
    TwoCopies(s, TWICE);
    var i, j :| 0 <= i < j < |s| && s[i] == TWICE && s[j] == TWICE;
    assert !GaaApart(s[i], s[j]);
  }

  /** An exclusion zone stored with its frequencies swapped: asked for 3550 to 3580 MHz, the answer
      offers the channel from 3560 to 3570 MHz twice. */
  lemma InvertedExclusionDuplicates()
    ensures Doubles([ASKED], UPSIDE_DOWN)
    ensures !AllGaaApart(Answer(ASKER, INVERTED, [ASKED]))
  {
    assert Overlaps([ASKED][0], UPSIDE_DOWN);
    InvertedCut();
    InvertedAnswer();
    TaggedTwice(Range(3_550 * MHZ, 3_560 * MHZ), TWICE.range, Range(3_570 * MHZ, 3_580 * MHZ));
    TwiceIsNotApart(Answer(ASKER, INVERTED, [ASKED]));
  }
}
