/** How a grant request is classified against PALs (services/grant_service.py), and how that
    agrees with the spectrum inquiry. */
module GrantChannel {
  import opened Wrappers
  import opened Spectrum
  import opened SpectrumInquiry

  const INVALID_PARAM: int := 103
  const INTERFERENCE: int := 400

  datatype Ruling = Gaa | PalAccess(exp: Option<int>, palId: string) | Refused(code: int)

  predicate Inside(r: Range, outer: Range) {
    r.low >= outer.low && r.high <= outer.high
  }

  /** The same walk over zones and PAL ids as the inquiry makes. */
  method PpaPalContext(cbsd: Cbsd, inc: Incumbents) returns (contexts: seq<Link>)
    ensures contexts == LinksFor(cbsd, inc)
    ensures forall k :: k in contexts <==> Linked(cbsd, inc, k)
    ensures forall i, j :: 0 <= i < j < |contexts| ==> LinkedInOrder(cbsd, inc, contexts[i], contexts[j])
  {
    var byId := PalById(inc.pals);
    contexts := [];
    for z := 0 to |inc.zones|
      invariant contexts == Links(cbsd, byId, inc.zones[..z])
    {
      assert inc.zones[..z + 1][..z] == inc.zones[..z];
      if inc.zones[z].isPpa {
        var palIds := inc.zones[z].palIds;
        ghost var done := contexts;
        for p := 0 to |palIds|
          invariant contexts == done + ZoneLinks(cbsd, byId, inc.zones[z], palIds[..p])
        {
          ZoneLinksStep(cbsd, byId, inc.zones[z], done, p);
          contexts := contexts + LinkOf(cbsd, byId, inc.zones[z], palIds[p]);
        }
        assert palIds[..|palIds|] == palIds;
      }
    }
    assert inc.zones[..|inc.zones|] == inc.zones;
    ContextsInFields(cbsd, inc);
  }

  /** The first link is that of an earlier entry. */
  ghost predicate LinkedInOrder(cbsd: Cbsd, inc: Incumbents, a: Link, b: Link) {
    exists z: nat, p: nat, y: nat, q: nat :: Sooner(z, p, y, q) && IsLink(cbsd, inc, z, p, a) && IsLink(cbsd, inc, y, q, b)
  }

  lemma ContextsInFields(cbsd: Cbsd, inc: Incumbents)
    ensures forall k :: k in LinksFor(cbsd, inc) <==> Linked(cbsd, inc, k)
    ensures var links := LinksFor(cbsd, inc); forall i, j :: 0 <= i < j < |links| ==> LinkedInOrder(cbsd, inc, links[i], links[j])
  {
    var links := LinksFor(cbsd, inc);
    forall k ensures k in links <==> Linked(cbsd, inc, k) {
      LinksExactly(cbsd, inc, k);
    }
    AllLinksBefore(cbsd, inc);
    forall i, j | 0 <= i < j < |links| ensures LinkedInOrder(cbsd, inc, links[i], links[j]) {
      var y, q := LinkStands(cbsd, inc, |inc.zones|, 0, j);
      LinksBeforeExactly(cbsd, inc, y, q, links[i]);
      assert links[..j][i] in LinksBefore(cbsd, inc, y, q);
      var z: nat, p: nat :| Sooner(z, p, y, q) && IsLink(cbsd, inc, z, p, links[i]);
    }
  }

  // ---------------------------------------------------- the ruling, field by field

  /** Context i overlaps the request. */
  predicate Meets(k: Link, r: Range) {
    r.low < k.freq.high && k.freq.low < r.high
  }

  /** Context i is a PAL of the user, holds the request whole and has the CBSD in its cluster. */
  predicate OwnPal(k: Link, r: Range, user: string) {
    Meets(k, r) && k.freq.low <= r.low && r.high <= k.freq.high && k.inCluster && k.userId == user
  }

  /** Intrusion comes first, then straddling; a PAL that holds the whole request is then the user's own,
      the first such, or the request is refused; what no PAL holds whole is general access. */
  ghost predicate RulingInFields(contexts: seq<Link>, r: Range, user: string, ruling: Ruling) {
    if exists k :: k in contexts && Meets(k, r) && k.inPpa && !k.inCluster then ruling == Refused(400)
    else if exists k :: k in contexts && Meets(k, r) && k.inCluster && (r.low < k.freq.low || k.freq.high < r.high) then ruling == Refused(103)
    else if exists k :: k in contexts && OwnPal(k, r, user) then
      exists i :: 0 <= i < |contexts| && OwnPal(contexts[i], r, user) && (forall j :: 0 <= j < i ==> !OwnPal(contexts[j], r, user))
                  && ruling == PalAccess(contexts[i].exp, contexts[i].palId)
    else if exists k :: k in contexts && Meets(k, r) && k.freq.low <= r.low && r.high <= k.freq.high then ruling == Refused(400)
    else ruling == Gaa
  }

  lemma {:induction false} FirstMineAt(contexts: seq<Link>, r: Range, user: string) returns (i: nat)
    requires FirstMine(contexts, r, user).Some?
    ensures i < |contexts| && FirstMine(contexts, r, user) == Some(contexts[i]) && OwnPal(contexts[i], r, user)
    ensures forall j :: 0 <= j < i ==> !OwnPal(contexts[j], r, user)
  {
    var n := |contexts| - 1;
    if FirstMine(contexts[..n], r, user).Some? {
      i := FirstMineAt(contexts[..n], r, user);
    } else {
      i := n;
      forall j | 0 <= j < n ensures !OwnPal(contexts[j], r, user) {
        assert contexts[..n][j] in contexts[..n];
      }
    }
  }

  lemma RulingExactly(contexts: seq<Link>, r: Range, user: string)
    ensures RulingInFields(contexts, r, user, RulingOf(contexts, r, user))
  {
    if FirstMine(contexts, r, user).Some? {
      var i := FirstMineAt(contexts, r, user);
    }
    assert forall k :: k in contexts && OwnPal(k, r, user) ==> CoveredBy(k, r) && Mine(k, r, user);
    assert forall k :: k in contexts && CoveredBy(k, r) ==> Meets(k, r);
    assert forall k :: k in contexts && Intrudes(k, r) ==> Meets(k, r);
    assert forall k :: k in contexts && Straddles(k, r) ==> Meets(k, r);
  }

  /** Claimed area without cluster membership. */
  predicate Intrudes(k: Link, r: Range) {
    Overlaps(r, k.freq) && k.inPpa && !k.inCluster
  }

  /** A cluster member straddling the border of its PAL. */
  predicate Straddles(k: Link, r: Range) {
    Overlaps(r, k.freq) && k.inCluster && !Inside(r, k.freq)
  }

  predicate CoveredBy(k: Link, r: Range) {
    Overlaps(r, k.freq) && Inside(r, k.freq)
  }

  predicate Mine(k: Link, r: Range, user: string) {
    CoveredBy(k, r) && k.inCluster && k.userId == user
  }

  /** The first of the contexts that carries the user's own PAL. */
  function FirstMine(contexts: seq<Link>, r: Range, user: string): (k: Option<Link>)
    ensures k.Some? ==> k.value in contexts && Mine(k.value, r, user)
    ensures k.None? ==> forall c :: c in contexts ==> !Mine(c, r, user)
  {
    if contexts == [] then None
    else
      var n := |contexts| - 1;
      var earlier := FirstMine(contexts[..n], r, user);
      assert contexts == contexts[..n] + [contexts[n]];
      if earlier.Some? then earlier
      else if Mine(contexts[n], r, user) then Some(contexts[n])
      else None
  }

  /** Order of the tests: intrusion, straddling, then full cover. */
  function RulingOf(contexts: seq<Link>, r: Range, user: string): (ruling: Ruling) {
    if exists k :: k in contexts && Intrudes(k, r) then Refused(INTERFERENCE)
    else if exists k :: k in contexts && Straddles(k, r) then Refused(INVALID_PARAM)
    else if exists k :: k in contexts && CoveredBy(k, r) then
      match FirstMine(contexts, r, user)
      case Some(k) => PalAccess(k.exp, k.palId)
      case None => Refused(INTERFERENCE)
    else Gaa
  }

  /** The contexts that overlap the request and those that hold it whole. */
  method Relevant(contexts: seq<Link>, r: Range, ghost user: string) returns (covering: seq<Link>, overlapping: seq<Link>)
    ensures forall k :: k in overlapping <==> k in contexts && Overlaps(r, k.freq)
    ensures forall k :: k in covering <==> k in contexts && CoveredBy(k, r)
    ensures FirstMine(covering, r, user) == FirstMine(contexts, r, user)
  {
    covering, overlapping := [], [];
    for i := 0 to |contexts|
      invariant forall k :: k in overlapping <==> k in contexts[..i] && Overlaps(r, k.freq)
      invariant forall k :: k in covering <==> k in contexts[..i] && CoveredBy(k, r)
      invariant FirstMine(covering, r, user) == FirstMine(contexts[..i], r, user)
    {
      var ctx := contexts[i];
      assert contexts[..i + 1] == contexts[..i] + [ctx];
      FirstMineStep(contexts[..i], ctx, r, user);
      if Overlaps(r, ctx.freq) {
        overlapping := overlapping + [ctx];
        if Inside(r, ctx.freq) {
          FirstMineStep(covering, ctx, r, user);
          covering := covering + [ctx];
        }
      }
    }
    assert contexts[..|contexts|] == contexts;
  }

  method ResolveChannel(contexts: seq<Link>, r: Range, user: string) returns (ruling: Ruling)
    ensures ruling == RulingOf(contexts, r, user)
    ensures RulingInFields(contexts, r, user, ruling)
  {
    RulingExactly(contexts, r, user);
    var covering, overlapping := Relevant(contexts, r, user);
    for m := 0 to |overlapping|
      invariant forall k :: k in overlapping[..m] ==> !Intrudes(k, r)
    {
      if overlapping[m].inPpa && !overlapping[m].inCluster {
        assert Intrudes(overlapping[m], r);
        return Refused(INTERFERENCE);
      }
    }
    assert overlapping[..|overlapping|] == overlapping;
    for m := 0 to |overlapping|
      invariant forall k :: k in overlapping[..m] ==> !Straddles(k, r)
    {
      if overlapping[m].inCluster && !Inside(r, overlapping[m].freq) {
        assert Straddles(overlapping[m], r);
        return Refused(INVALID_PARAM);
      }
    }
    if covering != [] {
      assert CoveredBy(covering[0], r);
      ruling := RuleCovered(covering, r, user);
      return;
    }
    return Gaa;
  }

  /** Among the PALs that hold the request whole: the user's own, or none. */
  method RuleCovered(covering: seq<Link>, r: Range, user: string) returns (ruling: Ruling)
    requires forall k :: k in covering ==> CoveredBy(k, r)
    ensures ruling == match FirstMine(covering, r, user)
                      case Some(k) => PalAccess(k.exp, k.palId)
                      case None => Refused(INTERFERENCE)
  {
    for m := 0 to |covering|
      invariant FirstMine(covering[..m], r, user) == None
    {
      FirstMineStep(covering[..m], covering[m], r, user);
      assert covering[..m + 1] == covering[..m] + [covering[m]];
      if covering[m].inCluster && covering[m].userId == user {
        FirstMinePrefix(covering, m + 1, r, user);
        return PalAccess(covering[m].exp, covering[m].palId);
      }
    }
    assert covering[..|covering|] == covering;
    return Refused(INTERFERENCE);
  }

  lemma FirstMineStep(contexts: seq<Link>, k: Link, r: Range, user: string)
    ensures FirstMine(contexts + [k], r, user) ==
            if FirstMine(contexts, r, user).Some? then FirstMine(contexts, r, user)
            else if Mine(k, r, user) then Some(k) else None
  {
    assert (contexts + [k])[..|contexts|] == contexts;
  }

  lemma {:induction false} FirstMinePrefix(contexts: seq<Link>, m: nat, r: Range, user: string)
    requires m <= |contexts| && FirstMine(contexts[..m], r, user).Some?
    ensures FirstMine(contexts, r, user) == FirstMine(contexts[..m], r, user)
  {
    if m == |contexts| {
      assert contexts[..m] == contexts;
    } else {
      var n := |contexts| - 1;
      assert contexts[..n][..m] == contexts[..m];
      FirstMinePrefix(contexts[..n], m, r, user);
    }
  }

  method HasFreqConflict(existing: seq<Range>, r: Range, pending: seq<Range>) returns (conflict: bool)
    ensures conflict <==> exists g :: g in existing + pending && Overlaps(g, r)
    ensures conflict <==> exists g :: g in existing + pending && g.low < r.high && r.low < g.high
  {
    for i := 0 to |existing|
      invariant forall j :: 0 <= j < i ==> !Overlaps(existing[j], r)
    {
      if Overlaps(existing[i], r) {
        assert existing[i] in existing + pending;
        return true;
      }
    }
    for i := 0 to |pending|
      invariant forall j :: 0 <= j < i ==> !Overlaps(pending[j], r)
    {
      if Overlaps(pending[i], r) {
        assert pending[i] in existing + pending;
        return true;
      }
    }
    return false;
  }

  // ---------------------------------------------- agreement with the inquiry

  /** A request resolved as general access overlaps no PAL range that the inquiry keeps from this
      CBSD; one resolved as PAL lies inside a PAL of the CBSD's user whose cluster contains it. */
  lemma RulingRespectsHolds(cbsd: Cbsd, inc: Incumbents, r: Range)
    ensures RulingOf(LinksFor(cbsd, inc), r, cbsd.userId) == Gaa ==>
              forall k :: k in LinksFor(cbsd, inc) && Held(k) ==> !Overlaps(r, k.freq)
    ensures RulingOf(LinksFor(cbsd, inc), r, cbsd.userId).PalAccess? ==>
              exists k :: k in LinksFor(cbsd, inc) && k.palId == RulingOf(LinksFor(cbsd, inc), r, cbsd.userId).palId
                       && Inside(r, k.freq) && k.inCluster && k.userId == cbsd.userId && Owns(cbsd, inc.pals, k.palId)
  {
    var links := LinksFor(cbsd, inc);
    var ruling := RulingOf(links, r, cbsd.userId);
    if ruling == Gaa {
      forall k | k in links && Held(k) ensures !Overlaps(r, k.freq) {
        assert Overlaps(r, k.freq) ==> Intrudes(k, r) || Straddles(k, r) || CoveredBy(k, r);
      }
    }
    if ruling.PalAccess? {
      var k := FirstMine(links, r, cbsd.userId).value;
      LinksComeFromPals(cbsd, PalById(inc.pals), inc.zones, k);
      assert PalById(inc.pals)[k.palId] in inc.pals;
    }
  }

  lemma {:induction false} ZoneLinksComeFromPals(cbsd: Cbsd, byId: map<string, Pal>, zone: Zone, palIds: seq<string>, k: Link)
    requires k in ZoneLinks(cbsd, byId, zone, palIds)
    ensures k.palId in byId && byId[k.palId].userId == k.userId && byId[k.palId].freq == Some(k.freq)
  {
    var n := |palIds| - 1;
    if k in ZoneLinks(cbsd, byId, zone, palIds[..n]) {
      ZoneLinksComeFromPals(cbsd, byId, zone, palIds[..n], k);
    }
  }

  lemma {:induction false} LinksComeFromPals(cbsd: Cbsd, byId: map<string, Pal>, zones: seq<Zone>, k: Link)
    requires k in Links(cbsd, byId, zones)
    ensures k.palId in byId && byId[k.palId].userId == k.userId && byId[k.palId].freq == Some(k.freq)
  {
    var n := |zones| - 1;
    if k in Links(cbsd, byId, zones[..n]) {
      LinksComeFromPals(cbsd, byId, zones[..n], k);
    } else {
      ZoneLinksComeFromPals(cbsd, byId, zones[n], zones[n].palIds, k);
    }
  }

  /** The whole request was offered for general access. */
  ghost predicate OfferedWhole(cbsd: Cbsd, inc: Incumbents, inquired: seq<Range>, r: Range) {
    r.low < r.high && forall x :: In(x, r) ==> OfferedAs(Answer(cbsd, inc, inquired), GAA, x)
  }

  /** An offered general-access range is ruled general access exactly when it does not lie fully
      inside some linked PAL channel, and no held PAL record with an inverted range meets it. */
  lemma OfferedIsGrantableExactly(cbsd: Cbsd, inc: Incumbents, inquired: seq<Range>, r: Range)
    requires OfferedWhole(cbsd, inc, inquired, r)
    ensures RulingOf(LinksFor(cbsd, inc), r, cbsd.userId) == Gaa
            <==> forall k :: k in LinksFor(cbsd, inc) ==>
                   !Inside(r, k.freq) && !(Held(k) && k.freq.low >= k.freq.high && Overlaps(r, k.freq))
  {
    var links := LinksFor(cbsd, inc);
    forall k | k in links && Held(k) && k.freq.low < k.freq.high ensures !Overlaps(r, k.freq) {
      if Overlaps(r, k.freq) {
        var x := Max(r.low, k.freq.low);
        assert In(x, r) && In(x, k.freq);
        GaaExact(cbsd, inc, inquired, x);
      }
    }
    forall k | k in links ensures Inside(r, k.freq) <==> CoveredBy(k, r) {
    }
    RulingRespectsHolds(cbsd, inc, r);
  }

  const WITNESS_RANGE: Range := Range(CBRS_LOW_HZ, CBRS_LOW_HZ + CHANNEL_HZ)
  const WITNESS_PAL: Pal := Pal("p", "v", Some(WITNESS_RANGE), None)
  const WITNESS_ZONE: Zone := Zone(true, {}, ["p"], false)
  const WITNESS_CBSD: Cbsd := Cbsd("c", "u", true)
  const WITNESS_LINK: Link := Link(WITNESS_RANGE, false, false, "v", None, "p")
  const WITNESS: Incumbents := Incumbents(Some([]), [], [], [WITNESS_PAL], [WITNESS_ZONE])

  lemma WitnessLinks()
    ensures LinksFor(WITNESS_CBSD, WITNESS) == [WITNESS_LINK]
  {
    var byId := PalById([WITNESS_PAL]);
    assert byId == map["p" := WITNESS_PAL] by {
      assert [WITNESS_PAL][..0] == [];
    }
    assert ZoneLinks(WITNESS_CBSD, byId, WITNESS_ZONE, ["p"]) == [WITNESS_LINK] by {
      assert ["p"][..0] == [];
    }
    assert [WITNESS_ZONE][..0] == [];
    assert Links(WITNESS_CBSD, byId, [WITNESS_ZONE]) ==
           Links(WITNESS_CBSD, byId, [WITNESS_ZONE][..0]) + ZoneLinks(WITNESS_CBSD, byId, WITNESS_ZONE, ["p"]);
  }

  lemma WitnessOffered(x: int)
    requires In(x, WITNESS_RANGE)
    ensures OfferedAs(Answer(WITNESS_CBSD, WITNESS, [WITNESS_RANGE]), GAA, x)
  {
    WitnessLinks();
    assert IncumbentRanges(WITNESS_CBSD, WITNESS) == [];
    CoversOne(WITNESS_RANGE, x);
    GaaExact(WITNESS_CBSD, WITNESS, [WITNESS_RANGE], x);
  }

  /** The witness: a 10 MHz channel inside a PAL whose area the CBSD stands outside of is offered
      for general access and then refused. */
  lemma OfferedButRefused()
    ensures OfferedWhole(WITNESS_CBSD, WITNESS, [WITNESS_RANGE], WITNESS_RANGE)
    ensures RulingOf(LinksFor(WITNESS_CBSD, WITNESS), WITNESS_RANGE, WITNESS_CBSD.userId) == Refused(INTERFERENCE)
  {
    forall x | In(x, WITNESS_RANGE) ensures OfferedAs(Answer(WITNESS_CBSD, WITNESS, [WITNESS_RANGE]), GAA, x) {
      WitnessOffered(x);
    }
    WitnessLinks();
    assert CoveredBy(WITNESS_LINK, WITNESS_RANGE) && !Mine(WITNESS_LINK, WITNESS_RANGE, "u");
    assert WITNESS_LINK in [WITNESS_LINK];
  }
}
