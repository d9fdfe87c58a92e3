/** The importer of peer activity dumps (services/fad_client_service.py): validation, duplicate
    check, atomic replacement and the "already applied" shortcut. */
module FadImport {
  import opened Wrappers
  import opened FadExport

  datatype Triple = Triple(recordType: string, id: string, item: Item)

  datatype Generation = Generation(generation: string, description: string, records: seq<Triple>)

  /** `version` is the expected version, `blank` says that an id has nothing but white space. */
  datatype Config = Config(version: string, maxFileBytes: int, blank: string -> bool)

  /** The peer as the client meets it: what each download returns and which URLs are same-origin
      with an address that may be contacted. */
  datatype Remote = Remote(urlBlank: bool, dumpAllowed: bool, manifest: Option<string>, allowed: Url -> bool, file: Url -> Option<string>)

  // ------------------------------------------------------------- validation

  function LowerChar(c: char): (d: char) {
    if 'A' <= c <= 'Z' then ((c as int) + 32) as char else c
  }

  function Lower(s: string): (r: string)
    ensures |r| == |s| && forall i :: 0 <= i < |s| ==> r[i] == LowerChar(s[i])
  {
    if s == "" then "" else [LowerChar(s[0])] + Lower(s[1..])
  }

  predicate HexDigest(s: string) {
    |s| == 40 && forall i :: 0 <= i < |s| ==> s[i] in "0123456789abcdef"
  }

  predicate EntryOk(cfg: Config, e: Entry) {
    && e.recordType in RECORD_TYPES && e.version == cfg.version
    && 0 <= e.size && (cfg.maxFileBytes > 0 ==> e.size <= cfg.maxFileBytes)
    && HexDigest(Lower(e.checksum))
  }

  predicate ManifestOk(cfg: Config, m: Manifest) {
    m.files != [] && |m.files| <= MANIFEST_MAX_FILES && forall e :: e in m.files ==> EntryOk(cfg, e)
  }

  method ValidateManifest(cfg: Config, m: Manifest) returns (ok: bool)
    ensures ok == ManifestOk(cfg, m)
    ensures ok <==> 1 <= |m.files| <= 101 && forall e :: e in m.files ==> ListedInFields(cfg, e)
  {
    forall e: Entry ensures EntryOk(cfg, e) <==> ListedInFields(cfg, e) {
      ListedExactly(cfg, e);
    }
    if m.files == [] || |m.files| > MANIFEST_MAX_FILES {
      return false;
    }
    for i := 0 to |m.files|
      invariant forall e :: e in m.files[..i] ==> EntryOk(cfg, e)
    {
      var e := m.files[i];
      if e.recordType !in RECORD_TYPES || e.version != cfg.version || e.size < 0
         || (cfg.maxFileBytes > 0 && e.size > cfg.maxFileBytes) || !HexDigest(Lower(e.checksum))
      {
        assert e in m.files && !EntryOk(cfg, e);
        return false;
      }
    }
    assert m.files[..|m.files|] == m.files;
    return true;
  }

  predicate HasId(cfg: Config, item: Item) {
    item.id.Some? && !cfg.blank(item.id.value)
  }

  predicate EnvelopeOk(cfg: Config, generation: string, e: Envelope) {
    e.startTime == generation && e.endTime == generation && forall item :: item in e.records ==> HasId(cfg, item)
  }

  method ValidateActivityEnvelope(cfg: Config, generation: string, e: Envelope) returns (ok: bool)
    ensures ok == EnvelopeOk(cfg, generation, e)
    ensures ok <==> e.startTime == generation && e.endTime == generation
                    && forall item :: item in e.records ==> item.id.Some? && !cfg.blank(item.id.value)
  {
    if e.startTime != generation || e.endTime != generation {
      return false;
    }
    for i := 0 to |e.records|
      invariant forall item :: item in e.records[..i] ==> HasId(cfg, item)
    {
      if !HasId(cfg, e.records[i]) {
        assert e.records[i] in e.records;
        return false;
      }
    }
    assert e.records[..|e.records|] == e.records;
    return true;
  }

  // ---------------------------------------------------------------- fetching

  /** The body of one listed file, when it passes every check. */
  function Body(codec: Codec, cfg: Config, remote: Remote, generation: string, e: Entry): (r: Option<Envelope>) {
    if !remote.allowed(e.url) then None
    else match remote.file(e.url)
      case None => None
      case Some(content) =>
        if cfg.maxFileBytes > 0 && |content| > cfg.maxFileBytes then None
        else if codec.sha1(content) != Lower(e.checksum) || |content| != e.size then None
        else match codec.decodeEnvelope(content)
          case None => None
          case Some(env) => if EnvelopeOk(cfg, generation, env) then Some(env) else None
  }

  function TriplesOf(recordType: string, items: seq<Item>): (r: seq<Triple>)
    ensures |r| == |items|
    ensures forall i :: 0 <= i < |items| ==> r[i] == Triple(recordType, if items[i].id.Some? then items[i].id.value else "", items[i])
  {
    if items == [] then []
    else TriplesOf(recordType, items[..|items| - 1])
         + [Triple(recordType, if items[|items| - 1].id.Some? then items[|items| - 1].id.value else "", items[|items| - 1])]
  }

  /** The records of all listed files; None if any file fails. */
  function Gathered(codec: Codec, cfg: Config, remote: Remote, generation: string, files: seq<Entry>): (r: Option<seq<Triple>>) {
    if files == [] then Some([])
    else
      var n := |files| - 1;
      var before := Gathered(codec, cfg, remote, generation, files[..n]);
      var body := Body(codec, cfg, remote, generation, files[n]);
      if before.Some? && body.Some? then Some(before.value + TriplesOf(files[n].recordType, body.value.records)) else None
  }

  ghost predicate UniqueKeys(records: seq<Triple>) {
    forall i, j :: 0 <= i < j < |records| ==> (records[i].recordType, records[i].id) != (records[j].recordType, records[j].id)
  }

  /** What a fetch answers: the generation, or None when any check fails. */
  ghost function Fetch(codec: Codec, cfg: Config, remote: Remote): (r: Option<Generation>) {
    if remote.urlBlank || !remote.dumpAllowed || remote.manifest.None? then None
    else match codec.decodeManifest(remote.manifest.value)
      case None => None
      case Some(m) =>
        if !ManifestOk(cfg, m) then None
        else match Gathered(codec, cfg, remote, m.generation, m.files)
          case None => None
          case Some(records) => if UniqueKeys(records) then Some(Generation(m.generation, m.description, records)) else None
  }

  lemma {:induction false} GatheredFails(codec: Codec, cfg: Config, remote: Remote, generation: string, files: seq<Entry>, k: nat)
    requires k < |files| && (Gathered(codec, cfg, remote, generation, files[..k]).None? || Body(codec, cfg, remote, generation, files[k]).None?)
    ensures Gathered(codec, cfg, remote, generation, files).None?
  {
    var n := |files| - 1;
    if k < n {
      assert files[..n][..k] == files[..k];
      GatheredFails(codec, cfg, remote, generation, files[..n], k);
    }
  }

  method Gather(codec: Codec, cfg: Config, remote: Remote, generation: string, files: seq<Entry>) returns (r: Option<seq<Triple>>)
    ensures r == Gathered(codec, cfg, remote, generation, files)
  {
    var records: seq<Triple> := [];
    for i := 0 to |files|
      invariant Gathered(codec, cfg, remote, generation, files[..i]) == Some(records)
    {
      var body := Body(codec, cfg, remote, generation, files[i]);
      if body.None? {
        GatheredFails(codec, cfg, remote, generation, files, i);
        return None;
      }
      assert files[..i + 1][..i] == files[..i];
      records := records + TriplesOf(files[i].recordType, body.value.records);
    }
    assert files[..|files|] == files;
    return Some(records);
  }

  method HasDuplicates(records: seq<Triple>) returns (dup: bool)
    ensures dup == !UniqueKeys(records)
  {
    var seen: set<(string, string)> := {};
    for i := 0 to |records|
      invariant UniqueKeys(records[..i])
      invariant forall key :: key in seen <==> exists j :: 0 <= j < i && key == (records[j].recordType, records[j].id)
    {
      var key := (records[i].recordType, records[i].id);
      if key in seen {
        return true;
      }
      seen := seen + {key};
    }
    assert records[..|records|] == records;
    return false;
  }

  // ------------------------------------------------- a fetch, field by field

  /** What the manifest may say of a file. */
  predicate ListedInFields(cfg: Config, e: Entry) {
    && e.recordType in RECORD_TYPES && e.version == cfg.version && 0 <= e.size
    && (0 < cfg.maxFileBytes ==> e.size <= cfg.maxFileBytes)
    && |e.checksum| == 40
    && forall i :: 0 <= i < 40 ==> '0' <= e.checksum[i] <= '9' || 'a' <= e.checksum[i] <= 'f' || 'A' <= e.checksum[i] <= 'F'
  }

  /** What must come of downloading it. */
  predicate DeliveredInFields(codec: Codec, cfg: Config, remote: Remote, generation: string, e: Entry) {
    && remote.allowed(e.url) && remote.file(e.url).Some?
    && var content := remote.file(e.url).value;
       && |content| == e.size && (0 < cfg.maxFileBytes ==> |content| <= cfg.maxFileBytes)
       && codec.sha1(content) == Lower(e.checksum) && codec.decodeEnvelope(content).Some?
       && var env := codec.decodeEnvelope(content).value;
          && env.startTime == generation && env.endTime == generation
          && forall item :: item in env.records ==> item.id.Some? && !cfg.blank(item.id.value)
  }

  function RecordsIn(codec: Codec, remote: Remote, e: Entry): (items: seq<Item>) {
    match remote.file(e.url)
    case None => []
    case Some(content) =>
      match codec.decodeEnvelope(content)
      case None => []
      case Some(env) => env.records
  }

  function TotalRecords(codec: Codec, remote: Remote, files: seq<Entry>): (n: nat) {
    if files == [] then 0
    else TotalRecords(codec, remote, files[..|files| - 1]) + |RecordsIn(codec, remote, files[|files| - 1])|
  }

  /** The triple is a record of this file. */
  predicate IsRecordOf(codec: Codec, remote: Remote, e: Entry, t: Triple) {
    t.recordType == e.recordType && Some(t.id) == t.item.id && t.item in RecordsIn(codec, remote, e)
  }

  predicate FromSome(codec: Codec, remote: Remote, files: seq<Entry>, t: Triple) {
    exists f :: 0 <= f < |files| && IsRecordOf(codec, remote, files[f], t)
  }

  predicate InSome(codec: Codec, remote: Remote, e: Entry, item: Item, records: seq<Triple>) {
    exists j :: 0 <= j < |records| && records[j].item == item && IsRecordOf(codec, remote, e, records[j])
  }

  /** The list has a triple for each record of each file, and no others. */
  ghost predicate FromFiles(codec: Codec, remote: Remote, files: seq<Entry>, records: seq<Triple>) {
    && |records| == TotalRecords(codec, remote, files)
    && (forall j :: 0 <= j < |records| ==> FromSome(codec, remote, files, records[j]))
    && (forall f, item :: 0 <= f < |files| && item in RecordsIn(codec, remote, files[f]) ==> InSome(codec, remote, files[f], item, records))
  }

  /** Every check on the way passes, up to that for duplicates. */
  ghost predicate FetchableInFields(codec: Codec, cfg: Config, remote: Remote) {
    && !remote.urlBlank && remote.dumpAllowed && remote.manifest.Some? && codec.decodeManifest(remote.manifest.value).Some?
    && var m := codec.decodeManifest(remote.manifest.value).value;
       && 1 <= |m.files| <= 101
       && forall e :: e in m.files ==> ListedInFields(cfg, e) && DeliveredInFields(codec, cfg, remote, m.generation, e)
  }

  lemma DigitExactly(c: char)
    ensures LowerChar(c) in "0123456789abcdef" <==> '0' <= c <= '9' || 'a' <= c <= 'f' || 'A' <= c <= 'F'
  {
    var digits := "0123456789abcdef";
    assert forall i :: 0 <= i < |digits| ==> '0' <= digits[i] <= '9' || 'a' <= digits[i] <= 'f';
    var d := LowerChar(c);
    if '0' <= d <= '9' {
      assert digits[d as int - '0' as int] == d;
    } else if 'a' <= d <= 'f' {
      assert digits[d as int - 'a' as int + 10] == d;
    }
  }

  lemma ListedExactly(cfg: Config, e: Entry)
    ensures EntryOk(cfg, e) <==> ListedInFields(cfg, e)
  {
    forall i | 0 <= i < |e.checksum|
      ensures Lower(e.checksum)[i] in "0123456789abcdef" <==>
              '0' <= e.checksum[i] <= '9' || 'a' <= e.checksum[i] <= 'f' || 'A' <= e.checksum[i] <= 'F'
    {
      DigitExactly(e.checksum[i]);
    }
  }

  lemma DeliveredExactly(codec: Codec, cfg: Config, remote: Remote, generation: string, e: Entry)
    ensures Body(codec, cfg, remote, generation, e).Some? <==> DeliveredInFields(codec, cfg, remote, generation, e)
    ensures Body(codec, cfg, remote, generation, e).Some? ==>
              var items := Body(codec, cfg, remote, generation, e).value.records;
              items == RecordsIn(codec, remote, e) && forall item :: item in items ==> item.id.Some?
  {
  }

  lemma FromSomeStep(codec: Codec, remote: Remote, files: seq<Entry>, e: Entry, t: Triple)
    requires FromSome(codec, remote, files, t) || IsRecordOf(codec, remote, e, t)
    ensures FromSome(codec, remote, files + [e], t)
  {
    if FromSome(codec, remote, files, t) {
      var f :| 0 <= f < |files| && IsRecordOf(codec, remote, files[f], t);
      assert (files + [e])[f] == files[f];
    } else {
      assert (files + [e])[|files|] == e;
    }
  }

  lemma InSomeStep(codec: Codec, remote: Remote, e: Entry, item: Item, records: seq<Triple>, more: seq<Triple>)
    requires InSome(codec, remote, e, item, records) || InSome(codec, remote, e, item, more)
    ensures InSome(codec, remote, e, item, records + more)
  {
    if InSome(codec, remote, e, item, records) {
      var j :| 0 <= j < |records| && records[j].item == item && IsRecordOf(codec, remote, e, records[j]);
      assert (records + more)[j] == records[j];
    } else {
      var j :| 0 <= j < |more| && more[j].item == item && IsRecordOf(codec, remote, e, more[j]);
      assert (records + more)[|records| + j] == more[j];
    }
  }

  lemma TriplesInFields(codec: Codec, remote: Remote, e: Entry)
    requires forall item :: item in RecordsIn(codec, remote, e) ==> item.id.Some?
    ensures var t := TriplesOf(e.recordType, RecordsIn(codec, remote, e));
            && (forall j :: 0 <= j < |t| ==> IsRecordOf(codec, remote, e, t[j]))
            && forall item :: item in RecordsIn(codec, remote, e) ==> InSome(codec, remote, e, item, t)
  {
    var items := RecordsIn(codec, remote, e);
    var t := TriplesOf(e.recordType, items);
    forall item | item in items ensures InSome(codec, remote, e, item, t) {
      var j :| 0 <= j < |items| && items[j] == item;
      assert t[j].item == item;
    }
  }

  lemma FromFilesStep(codec: Codec, remote: Remote, files: seq<Entry>, records: seq<Triple>, e: Entry)
    requires FromFiles(codec, remote, files, records) && forall item :: item in RecordsIn(codec, remote, e) ==> item.id.Some?
    ensures FromFiles(codec, remote, files + [e], records + TriplesOf(e.recordType, RecordsIn(codec, remote, e)))
  {
    var more := TriplesOf(e.recordType, RecordsIn(codec, remote, e));
    var all, longer := records + more, files + [e];
    TriplesInFields(codec, remote, e);
    assert longer[..|files|] == files;
    forall j | 0 <= j < |all| ensures FromSome(codec, remote, longer, all[j]) {
      FromSomeStep(codec, remote, files, e, all[j]);
    }
    forall f, item | 0 <= f < |longer| && item in RecordsIn(codec, remote, longer[f])
      ensures InSome(codec, remote, longer[f], item, all)
    {
      InSomeStep(codec, remote, longer[f], item, records, more);
    }
  }

  lemma {:induction false} GatheredInFields(codec: Codec, cfg: Config, remote: Remote, generation: string, files: seq<Entry>)
    ensures var r := Gathered(codec, cfg, remote, generation, files);
            && (r.Some? <==> forall e :: e in files ==> DeliveredInFields(codec, cfg, remote, generation, e))
            && (r.Some? ==> FromFiles(codec, remote, files, r.value))
  {
    if files != [] {
      var front, e := files[..|files| - 1], files[|files| - 1];
      assert files == front + [e];
      GatheredInFields(codec, cfg, remote, generation, front);
      DeliveredExactly(codec, cfg, remote, generation, e);
      if Gathered(codec, cfg, remote, generation, files).Some? {
        FromFilesStep(codec, remote, front, Gathered(codec, cfg, remote, generation, front).value, e);
      }
    }
  }

  /** The answer of a fetch in terms of manifest and files. */
  ghost predicate FetchInFields(codec: Codec, cfg: Config, remote: Remote, r: Option<Generation>) {
    && (r.Some? ==>
          && FetchableInFields(codec, cfg, remote)
          && var m := codec.decodeManifest(remote.manifest.value).value;
             && r.value.generation == m.generation && r.value.description == m.description
             && FromFiles(codec, remote, m.files, r.value.records) && UniqueKeys(r.value.records))
    && (r.None? && FetchableInFields(codec, cfg, remote) ==>
          exists records :: FromFiles(codec, remote, codec.decodeManifest(remote.manifest.value).value.files, records) && !UniqueKeys(records))
  }

  lemma FetchExactly(codec: Codec, cfg: Config, remote: Remote)
    ensures FetchInFields(codec, cfg, remote, Fetch(codec, cfg, remote))
  {
    if !remote.urlBlank && remote.dumpAllowed && remote.manifest.Some? && codec.decodeManifest(remote.manifest.value).Some? {
      var m := codec.decodeManifest(remote.manifest.value).value;
      forall e ensures EntryOk(cfg, e) <==> ListedInFields(cfg, e) {
        ListedExactly(cfg, e);
      }
      GatheredInFields(codec, cfg, remote, m.generation, m.files);
    }
  }

  /** Download and validate one generation; nothing is written. */
  method FetchPeerGeneration(codec: Codec, cfg: Config, remote: Remote) returns (r: Option<Generation>)
    ensures r == Fetch(codec, cfg, remote)
    ensures FetchInFields(codec, cfg, remote, r)
  {
    FetchExactly(codec, cfg, remote);
    if remote.urlBlank || !remote.dumpAllowed || remote.manifest.None? {
      return None;
    }
    var m := codec.decodeManifest(remote.manifest.value);
    if m.None? {
      return None;
    }
    var ok := ValidateManifest(cfg, m.value);
    if !ok {
      return None;
    }
    var records := Gather(codec, cfg, remote, m.value.generation, m.value.files);
    if records.None? {
      return None;
    }
    var dup := HasDuplicates(records.value);
    return if dup then None else Some(Generation(m.value.generation, m.value.description, records.value));
  }

  // --------------------------------------------------------------- the store

  datatype PeerRow = PeerRow(peer: int, recordType: string, id: string, json: string)

  type Json = Item -> string

  /** `last` holds each known peer and its last applied generation. */
  datatype PeerDb = PeerDb(rows: seq<PeerRow>, last: map<int, Option<string>>)

  function RowOf(peer: int, json: Json, t: Triple): (r: PeerRow) {
    PeerRow(peer, t.recordType, t.id, json(t.item))
  }

  function RowsFor(peer: int, json: Json, records: seq<Triple>): (r: seq<PeerRow>)
    ensures |r| == |records| && forall i :: 0 <= i < |records| ==> r[i] == RowOf(peer, json, records[i])
  {
    if records == [] then [] else RowsFor(peer, json, records[..|records| - 1]) + [RowOf(peer, json, records[|records| - 1])]
  }

  /** The rows of all peers but one. */
  function Others(rows: seq<PeerRow>, peer: int): (r: seq<PeerRow>)
    ensures forall row :: row in r <==> row in rows && row.peer != peer
  {
    if rows == [] then []
    else
      assert rows == [rows[0]] + rows[1..];
      (if rows[0].peer != peer then [rows[0]] else []) + Others(rows[1..], peer)
  }

  function Own(rows: seq<PeerRow>, peer: int): (r: seq<PeerRow>)
    ensures forall row :: row in r <==> row in rows && row.peer == peer
  {
    if rows == [] then []
    else
      assert rows == [rows[0]] + rows[1..];
      (if rows[0].peer == peer then [rows[0]] else []) + Own(rows[1..], peer)
  }

  /** Plain replacement: delete the peer's rows, insert the new ones, note the generation. */
  function Replaced(db: PeerDb, peer: int, json: Json, g: Generation): (r: PeerDb) {
    PeerDb(Others(db.rows, peer) + RowsFor(peer, json, g.records), if peer in db.last then db.last[peer := Some(g.generation)] else db.last)
  }

  function TripleSet(rows: seq<PeerRow>): (s: set<(string, string, string)>) {
    set row | row in rows :: (row.recordType, row.id, row.json)
  }

  predicate AlreadyApplied(db: PeerDb, peer: int, json: Json, g: Generation) {
    && peer in db.last && db.last[peer].Some? && db.last[peer].value != "" && db.last[peer].value == g.generation
    && TripleSet(Own(db.rows, peer)) == TripleSet(RowsFor(peer, json, g.records))
  }

  /** One synchronisation of a peer, shortcut included. */
  ghost function Synced(db: PeerDb, peer: int, json: Json, codec: Codec, cfg: Config, remote: Remote): (r: (PeerDb, bool)) {
    if remote.urlBlank then (db, true)
    else match Fetch(codec, cfg, remote)
      case None => (db, false)
      case Some(g) =>
        if peer !in db.last then (db, false)
        else if AlreadyApplied(db, peer, json, g) then (db, true)
        else (Replaced(db, peer, json, g), true)
  }

  // -------------------------------------------- what is stored, field by field

  /** This row of the peer stores this record. */
  predicate Stores(row: PeerRow, peer: int, json: Json, t: Triple) {
    row.peer == peer && row.recordType == t.recordType && row.id == t.id && row.json == json(t.item)
  }

  /** The peer's rows are the last ones, one for each record in order; the rows of others are those
      there were before. */
  ghost predicate ReplacedInFields(before: seq<PeerRow>, after: seq<PeerRow>, peer: int, json: Json, records: seq<Triple>) {
    && SameElsewhere(before, after, peer)
    && exists others: seq<PeerRow>, own :: after == others + own && (forall row :: row in others ==> row.peer != peer) && StoredInOrder(own, peer, json, records)
  }

  predicate StoredInOrder(own: seq<PeerRow>, peer: int, json: Json, records: seq<Triple>) {
    |own| == |records| && forall j :: 0 <= j < |records| ==> Stores(own[j], peer, json, records[j])
  }

  /** The rows of all other peers are there as often as before. */
  ghost predicate SameElsewhere(before: seq<PeerRow>, after: seq<PeerRow>, peer: int) {
    forall row: PeerRow :: row.peer != peer ==> multiset(after)[row] == multiset(before)[row]
  }

  predicate InSomeRow(rows: seq<PeerRow>, peer: int, json: Json, t: Triple) {
    exists i :: 0 <= i < |rows| && Stores(rows[i], peer, json, t)
  }

  predicate StoresSome(row: PeerRow, peer: int, json: Json, records: seq<Triple>) {
    exists j :: 0 <= j < |records| && Stores(row, peer, json, records[j])
  }

  /** Each record is in some row of the peer, and each row of the peer stores some record. */
  ghost predicate HoldsRecords(rows: seq<PeerRow>, peer: int, json: Json, records: seq<Triple>) {
    && (forall j :: 0 <= j < |records| ==> InSomeRow(rows, peer, json, records[j]))
    && (forall i :: 0 <= i < |rows| && rows[i].peer == peer ==> StoresSome(rows[i], peer, json, records))
  }

  lemma CountOfJoin<T>(a: seq<T>, b: seq<T>, x: T)
    requires x !in b
    ensures multiset(a + b)[x] == multiset(a)[x]
  {
  }

  lemma CountOfOthers(rows: seq<PeerRow>, peer: int, row: PeerRow)
    requires row.peer != peer
    ensures multiset(Others(rows, peer))[row] == multiset(rows)[row]
  {
    SplitByPeer(rows, peer);
    assert row !in Own(rows, peer);
  }

  lemma RowsInOrder(peer: int, json: Json, records: seq<Triple>)
    ensures StoredInOrder(RowsFor(peer, json, records), peer, json, records)
  {
  }

  lemma ElsewhereKept(rows: seq<PeerRow>, inserted: seq<PeerRow>, peer: int)
    requires forall row :: row in inserted ==> row.peer == peer
    ensures SameElsewhere(rows, Others(rows, peer) + inserted, peer)
  {
    forall row: PeerRow | row.peer != peer ensures multiset(Others(rows, peer) + inserted)[row] == multiset(rows)[row] {
      CountOfOthers(rows, peer, row);
      CountOfJoin(Others(rows, peer), inserted, row);
    }
  }

  lemma ReplacedExactly(db: PeerDb, peer: int, json: Json, g: Generation)
    ensures ReplacedInFields(db.rows, Replaced(db, peer, json, g).rows, peer, json, g.records)
  {
    InsertedAreOwn(peer, json, g.records);
    ElsewhereKept(db.rows, RowsFor(peer, json, g.records), peer);
    RowsInOrder(peer, json, g.records);
  }

  lemma InsertedAreOwn(peer: int, json: Json, records: seq<Triple>)
    ensures forall row :: row in RowsFor(peer, json, records) ==> row.peer == peer
  {
    var inserted := RowsFor(peer, json, records);
    forall row | row in inserted ensures row.peer == peer {
      var i :| 0 <= i < |inserted| && inserted[i] == row;
    }
  }

  lemma InSomeRowExactly(rows: seq<PeerRow>, peer: int, json: Json, t: Triple)
    ensures InSomeRow(rows, peer, json, t) <==> (t.recordType, t.id, json(t.item)) in TripleSet(Own(rows, peer))
  {
    var key := (t.recordType, t.id, json(t.item));
    if key in TripleSet(Own(rows, peer)) {
      var row :| row in Own(rows, peer) && (row.recordType, row.id, row.json) == key;
      var i :| 0 <= i < |rows| && rows[i] == row;
      assert Stores(rows[i], peer, json, t);
    }
    if InSomeRow(rows, peer, json, t) {
      var i :| 0 <= i < |rows| && Stores(rows[i], peer, json, t);
      assert rows[i] in Own(rows, peer);
    }
  }

  lemma StoresSomeExactly(row: PeerRow, peer: int, json: Json, records: seq<Triple>)
    requires row.peer == peer
    ensures StoresSome(row, peer, json, records) <==> (row.recordType, row.id, row.json) in TripleSet(RowsFor(peer, json, records))
  {
    var fetched := RowsFor(peer, json, records);
    if (row.recordType, row.id, row.json) in TripleSet(fetched) {
      var other :| other in fetched && (other.recordType, other.id, other.json) == (row.recordType, row.id, row.json);
      var j :| 0 <= j < |fetched| && fetched[j] == other;
      assert Stores(row, peer, json, records[j]);
    }
    if StoresSome(row, peer, json, records) {
      var j :| 0 <= j < |records| && Stores(row, peer, json, records[j]);
      assert fetched[j] in fetched;
    }
  }

  lemma SameTriplesExactly(rows: seq<PeerRow>, peer: int, json: Json, records: seq<Triple>)
    ensures TripleSet(Own(rows, peer)) == TripleSet(RowsFor(peer, json, records)) <==> HoldsRecords(rows, peer, json, records)
  {
    var own, fetched := TripleSet(Own(rows, peer)), TripleSet(RowsFor(peer, json, records));
    forall j | 0 <= j < |records|
      ensures (records[j].recordType, records[j].id, json(records[j].item)) in fetched
      ensures InSomeRow(rows, peer, json, records[j]) <==> (records[j].recordType, records[j].id, json(records[j].item)) in own
    {
      InSomeRowExactly(rows, peer, json, records[j]);
      assert RowsFor(peer, json, records)[j] in RowsFor(peer, json, records);
    }
    forall i | 0 <= i < |rows| && rows[i].peer == peer
      ensures (rows[i].recordType, rows[i].id, rows[i].json) in own
      ensures StoresSome(rows[i], peer, json, records) <==> (rows[i].recordType, rows[i].id, rows[i].json) in fetched
    {
      StoresSomeExactly(rows[i], peer, json, records);
      assert rows[i] in Own(rows, peer);
    }
    if HoldsRecords(rows, peer, json, records) {
      HeldBothWays(rows, peer, json, records);
    }
  }

  lemma HeldBothWays(rows: seq<PeerRow>, peer: int, json: Json, records: seq<Triple>)
    requires HoldsRecords(rows, peer, json, records)
    ensures TripleSet(Own(rows, peer)) == TripleSet(RowsFor(peer, json, records))
  {
    var own, fetched := Own(rows, peer), RowsFor(peer, json, records);
    forall row | row in own ensures (row.recordType, row.id, row.json) in TripleSet(fetched) {
      var i :| 0 <= i < |rows| && rows[i] == row;
      StoresSomeExactly(rows[i], peer, json, records);
    }
    forall row | row in fetched ensures (row.recordType, row.id, row.json) in TripleSet(own) {
      var j :| 0 <= j < |fetched| && fetched[j] == row;
      InSomeRowExactly(rows, peer, json, records[j]);
    }
  }

  /** The duplicate check compares what is stored with what was fetched. */
  lemma AlreadyAppliedExactly(db: PeerDb, peer: int, json: Json, g: Generation)
    ensures AlreadyApplied(db, peer, json, g) <==>
            && peer in db.last && db.last[peer] == Some(g.generation) && g.generation != ""
            && HoldsRecords(db.rows, peer, json, g.records)
  {
    SameTriplesExactly(db.rows, peer, json, g.records);
  }

  lemma ReplacedHolds(before: seq<PeerRow>, after: seq<PeerRow>, peer: int, json: Json, records: seq<Triple>)
    requires ReplacedInFields(before, after, peer, json, records)
    ensures HoldsRecords(after, peer, json, records)
  {
    var others: seq<PeerRow>, own :| after == others + own && (forall row :: row in others ==> row.peer != peer) && StoredInOrder(own, peer, json, records);
    forall i | 0 <= i < |others| ensures after[i].peer != peer {
      assert others[i] in others;
    }
    forall i | 0 <= i < |after| && after[i].peer == peer ensures StoresSome(after[i], peer, json, records) {
      assert after[i] == own[i - |others|] && Stores(own[i - |others|], peer, json, records[i - |others|]);
    }
    forall j | 0 <= j < |records| ensures InSomeRow(after, peer, json, records[j]) {
      assert after[|others| + j] == own[j] && Stores(own[j], peer, json, records[j]);
    }
  }

  class PeerStore {
    var rows: seq<PeerRow>
    var last: map<int, Option<string>>
    const codec: Codec
    const cfg: Config
    const json: Json

    constructor (codec: Codec, cfg: Config, json: Json, last: map<int, Option<string>>)
      ensures this.codec == codec && this.cfg == cfg && this.json == json && View() == PeerDb([], last)
    {
      this.codec, this.cfg, this.json, this.last := codec, cfg, json, last;
      rows := [];
    }

    function View(): (db: PeerDb)
      reads this
    {
      PeerDb(rows, last)
    }

    method ApplyPeerGeneration(peer: int, g: Generation)
      modifies this
      ensures View() == Replaced(old(View()), peer, json, g)
      ensures ReplacedInFields(old(rows), rows, peer, json, g.records)
      ensures last == if peer in old(last) then old(last)[peer := Some(g.generation)] else old(last)
    {
      rows := Others(rows, peer);
      ghost var kept := rows;
      for i := 0 to |g.records|
        invariant last == old(last)
        invariant rows == kept + RowsFor(peer, json, g.records[..i])
      {
        assert g.records[..i + 1][..i] == g.records[..i];
        rows := rows + [RowOf(peer, json, g.records[i])];
      }
      assert g.records[..|g.records|] == g.records;
      if peer in last {
        last := last[peer := Some(g.generation)];
      }
      ReplacedExactly(old(View()), peer, json, g);
    }

    /** The generation fetched, if there was one, and whether the synchronisation went well. */
    method SyncOnePeer(peer: int, remote: Remote) returns (g: Option<Generation>, ok: bool)
      modifies this
      ensures (View(), ok) == Synced(old(View()), peer, json, codec, cfg, remote)
      ensures g == if remote.urlBlank || !ok then None else Fetch(codec, cfg, remote)
      ensures ok <==> remote.urlBlank || (Fetch(codec, cfg, remote).Some? && peer in old(last))
      ensures !ok || remote.urlBlank ==> rows == old(rows) && last == old(last)
      ensures g.Some? ==> HoldsRecords(rows, peer, json, g.value.records) && last == old(last)[peer := Some(g.value.generation)]
    {
      if remote.urlBlank {
        return None, true;
      }
      g := FetchPeerGeneration(codec, cfg, remote);
      if g.None? || peer !in last {
        return None, false;
      }
      AlreadyAppliedExactly(View(), peer, json, g.value);
      if AlreadyApplied(View(), peer, json, g.value) {
        return g, true;
      }
      ghost var before := rows;
      ApplyPeerGeneration(peer, g.value);
      ReplacedHolds(before, rows, peer, json, g.value.records);
      return g, true;
    }

    /** `remotes[i]` is what peer number i answers during this run. */
    method RunPeerFadSync(peers: seq<int>, remotes: seq<Remote>) returns (report: Report)
      requires |remotes| == |peers|
      modifies this
      ensures View() == SyncedAll(old(View()), json, codec, cfg, peers, remotes)
      ensures report == ReportOf(old(View()), json, codec, cfg, peers, remotes)
      ensures KeysUnique(old(rows)) && Distinct(peers) ==>
                && report.ok == GoodCount(old(last).Keys, codec, cfg, peers, remotes) && report.failed == |peers| - report.ok
                && report.skipped == IdleCount(old(View()), json, codec, cfg, peers, remotes)
                && last.Keys == old(last).Keys
                && forall k :: 0 <= k < |peers| ==> PeerInFields(old(View()), View(), json, codec, cfg, peers[k], remotes[k])
    {
      report := Report(0, 0, 0);
      for i := 0 to |peers|
        invariant View() == SyncedAll(old(View()), json, codec, cfg, peers[..i], remotes[..i])
        invariant report == ReportOf(old(View()), json, codec, cfg, peers[..i], remotes[..i])
      {
        assert peers[..i + 1][..i] == peers[..i] && remotes[..i + 1][..i] == remotes[..i];
        var before := View();
        var g, done := SyncOnePeer(peers[i], remotes[i]);
        if done {
          report := report.(ok := report.ok + 1);
          if g.Some? && AlreadyApplied(before, peers[i], json, g.value) {
            report := report.(skipped := report.skipped + 1);
          }
        } else {
          report := report.(failed := report.failed + 1);
        }
      }
      assert peers[..|peers|] == peers && remotes[..|remotes|] == remotes;
      if KeysUnique(old(rows)) && Distinct(peers) {
        ReportExactly(old(View()), json, codec, cfg, peers, remotes);
        RunInFields(old(View()), json, codec, cfg, peers, remotes);
      }
    }
  }

  /** `skipped` counts the peers whose rows and generation were already those fetched. */
  datatype Report = Report(ok: nat, failed: nat, skipped: nat)

  ghost function SyncedAll(db: PeerDb, json: Json, codec: Codec, cfg: Config, peers: seq<int>, remotes: seq<Remote>): (r: PeerDb)
    requires |remotes| == |peers|
  {
    if peers == [] then db
    else
      var n := |peers| - 1;
      Synced(SyncedAll(db, json, codec, cfg, peers[..n], remotes[..n]), peers[n], json, codec, cfg, remotes[n]).0
  }

  /** The shortcut is taken. */
  ghost predicate Skips(db: PeerDb, peer: int, json: Json, codec: Codec, cfg: Config, remote: Remote) {
    !remote.urlBlank && Fetch(codec, cfg, remote).Some? && AlreadyApplied(db, peer, json, Fetch(codec, cfg, remote).value)
  }

  ghost function ReportOf(db: PeerDb, json: Json, codec: Codec, cfg: Config, peers: seq<int>, remotes: seq<Remote>): (r: Report)
    requires |remotes| == |peers|
    ensures r.ok + r.failed == |peers| && r.skipped <= r.ok
  {
    if peers == [] then Report(0, 0, 0)
    else
      var n := |peers| - 1;
      var so := ReportOf(db, json, codec, cfg, peers[..n], remotes[..n]);
      var before := SyncedAll(db, json, codec, cfg, peers[..n], remotes[..n]);
      if Synced(before, peers[n], json, codec, cfg, remotes[n]).1 then
        Report(so.ok + 1, so.failed, so.skipped + if Skips(before, peers[n], json, codec, cfg, remotes[n]) then 1 else 0)
      else so.(failed := so.failed + 1)
  }

  // ---------------------------------------------------------------- properties

  predicate SameKey(a: PeerRow, b: PeerRow) {
    a.peer == b.peer && a.recordType == b.recordType && a.id == b.id
  }

  /** No peer has two rows for one record. */
  ghost predicate KeysUnique(rows: seq<PeerRow>) {
    forall i, j :: 0 <= i < j < |rows| ==> !SameKey(rows[i], rows[j])
  }

  lemma MultisetStep<T>(s: seq<T>)
    requires s != []
    ensures multiset(s) == multiset([s[0]]) + multiset(s[1..])
  {
    assert s == [s[0]] + s[1..];
  }

  lemma {:induction false} SplitByPeer(rows: seq<PeerRow>, peer: int)
    ensures multiset(rows) == multiset(Others(rows, peer)) + multiset(Own(rows, peer))
  {
    if rows != [] {
      SplitByPeer(rows[1..], peer);
      MultisetStep(rows);
    }
  }

  lemma {:induction false} OnceEach<T>(s: seq<T>, x: T)
    requires forall i, j :: 0 <= i < j < |s| ==> s[i] != s[j]
    ensures multiset(s)[x] == if x in s then 1 else 0
  {
    if s != [] {
      var t := s[1..];
      forall i, j | 0 <= i < j < |t| ensures t[i] != t[j] {
        assert s[i + 1] != s[j + 1];
      }
      OnceEach(t, x);
      MultisetStep(s);
      forall k | 0 <= k < |t| ensures t[k] != s[0] {
        assert s[0] != s[k + 1];
      }
    }
  }

  lemma SameSetSameMultiset<T>(a: seq<T>, b: seq<T>)
    requires forall i, j :: 0 <= i < j < |a| ==> a[i] != a[j]
    requires forall i, j :: 0 <= i < j < |b| ==> b[i] != b[j]
    requires forall x :: x in a <==> x in b
    ensures multiset(a) == multiset(b)
  {
    forall x: T ensures multiset(a)[x] == multiset(b)[x] {
      OnceEach(a, x);
      OnceEach(b, x);
    }
  }

  lemma {:induction false} OwnKeysUnique(rows: seq<PeerRow>, peer: int)
    requires KeysUnique(rows)
    ensures KeysUnique(Own(rows, peer))
  {
    if rows != [] {
      var t := rows[1..];
      forall i, j | 0 <= i < j < |t| ensures !SameKey(t[i], t[j]) {
        assert !SameKey(rows[i + 1], rows[j + 1]);
      }
      OwnKeysUnique(t, peer);
      var o := Own(t, peer);
      forall i | 0 <= i < |o| ensures !SameKey(rows[0], o[i]) {
        assert o[i] in t;
        var k :| 0 <= k < |t| && t[k] == o[i];
        assert rows[k + 1] == o[i];
      }
    }
  }

  lemma {:induction false} OthersKeysUnique(rows: seq<PeerRow>, peer: int)
    requires KeysUnique(rows)
    ensures KeysUnique(Others(rows, peer))
  {
    if rows != [] {
      var t := rows[1..];
      forall i, j | 0 <= i < j < |t| ensures !SameKey(t[i], t[j]) {
        assert !SameKey(rows[i + 1], rows[j + 1]);
      }
      OthersKeysUnique(t, peer);
      var o := Others(t, peer);
      forall i | 0 <= i < |o| ensures !SameKey(rows[0], o[i]) {
        assert o[i] in t;
        var k :| 0 <= k < |t| && t[k] == o[i];
        assert rows[k + 1] == o[i];
      }
    }
  }

  lemma FreshKeysUnique(peer: int, json: Json, records: seq<Triple>)
    requires UniqueKeys(records)
    ensures KeysUnique(RowsFor(peer, json, records))
  {
    var rows := RowsFor(peer, json, records);
    forall i, j | 0 <= i < j < |rows| ensures !SameKey(rows[i], rows[j]) {
      assert (records[i].recordType, records[i].id) != (records[j].recordType, records[j].id);
    }
  }

  /** Two lists of one peer's rows with the same triples are permutations, when neither repeats a key. */
  lemma SameTriplesSameRows(a: seq<PeerRow>, b: seq<PeerRow>, peer: int)
    requires KeysUnique(a) && KeysUnique(b) && TripleSet(a) == TripleSet(b)
    requires (forall row :: row in a ==> row.peer == peer) && (forall row :: row in b ==> row.peer == peer)
    ensures multiset(a) == multiset(b)
  {
    forall row: PeerRow ensures row in a <==> row in b {
      var key := (row.recordType, row.id, row.json);
      if row in a {
        assert key in TripleSet(b);
        var other :| other in b && (other.recordType, other.id, other.json) == key;
        assert other == row;
      }
      if row in b {
        assert key in TripleSet(a);
        var other :| other in a && (other.recordType, other.id, other.json) == key;
        assert other == row;
      }
    }
    forall i, j | 0 <= i < j < |a| ensures a[i] != a[j] {
      assert !SameKey(a[i], a[j]);
    }
    forall i, j | 0 <= i < j < |b| ensures b[i] != b[j] {
      assert !SameKey(b[i], b[j]);
    }
    SameSetSameMultiset(a, b);
  }

  /** The shortcut leaves what plain replacement would have left: the same rows up to order, the same
      generation. */
  lemma ShortcutIsReplacement(db: PeerDb, peer: int, json: Json, g: Generation)
    requires KeysUnique(db.rows) && UniqueKeys(g.records) && AlreadyApplied(db, peer, json, g)
    ensures multiset(Replaced(db, peer, json, g).rows) == multiset(db.rows)
    ensures Replaced(db, peer, json, g).last == db.last
  {
    SplitByPeer(db.rows, peer);
    AppliedOwn(db, peer, json, g);
  }

  /** On success a synchronisation refines plain replacement, on failure nothing changes; either way
      no record is ever stored twice. */
  lemma SyncRefinesReplacement(db: PeerDb, peer: int, json: Json, codec: Codec, cfg: Config, remote: Remote)
    requires KeysUnique(db.rows)
    ensures var r := Synced(db, peer, json, codec, cfg, remote);
            && KeysUnique(r.0.rows)
            && (!r.1 ==> r.0 == db)
            && (r.1 <==> remote.urlBlank || (Fetch(codec, cfg, remote).Some? && peer in db.last))
            && (r.1 && !remote.urlBlank ==>
                  var plain := Replaced(db, peer, json, Fetch(codec, cfg, remote).value);
                  multiset(r.0.rows) == multiset(plain.rows) && r.0.last == plain.last)
  {
    if !remote.urlBlank && Fetch(codec, cfg, remote).Some? {
      var g := Fetch(codec, cfg, remote).value;
      FreshKeysUnique(peer, json, g.records);
      OthersKeysUnique(db.rows, peer);
      if AlreadyApplied(db, peer, json, g) {
        ShortcutIsReplacement(db, peer, json, g);
      } else {
        JoinKeysUnique(Others(db.rows, peer), RowsFor(peer, json, g.records), peer);
      }
    }
  }

  lemma JoinKeysUnique(a: seq<PeerRow>, b: seq<PeerRow>, peer: int)
    requires KeysUnique(a) && KeysUnique(b)
    requires (forall row :: row in a ==> row.peer != peer) && (forall row :: row in b ==> row.peer == peer)
    ensures KeysUnique(a + b)
  {
    forall i, j | 0 <= i < j < |a + b| ensures !SameKey((a + b)[i], (a + b)[j]) {
      if i < |a| <= j {
        assert a[i] in a && b[j - |a|] in b;
      }
    }
  }

  lemma {:induction false} OwnJoined(a: seq<PeerRow>, b: seq<PeerRow>, peer: int)
    ensures Own(a + b, peer) == Own(a, peer) + Own(b, peer)
  {
    if a == [] {
      assert a + b == b;
    } else {
      assert (a + b)[1..] == a[1..] + b;
      OwnJoined(a[1..], b, peer);
    }
  }

  lemma {:induction false} OwnOfOthers(rows: seq<PeerRow>, peer: int, q: int)
    ensures Own(Others(rows, peer), q) == if q == peer then [] else Own(rows, q)
  {
    if rows != [] {
      OwnOfOthers(rows[1..], peer, q);
      OwnJoined(if rows[0].peer != peer then [rows[0]] else [], Others(rows[1..], peer), q);
      assert [rows[0]][1..] == [];
    }
  }

  lemma {:induction false} OwnOfUniform(rows: seq<PeerRow>, peer: int, q: int)
    requires forall row :: row in rows ==> row.peer == peer
    ensures Own(rows, q) == if q == peer then rows else []
  {
    if rows != [] {
      OwnOfUniform(rows[1..], peer, q);
    }
  }

  lemma OwnOfJoin(a: seq<PeerRow>, b: seq<PeerRow>, peer: int, q: int)
    requires forall row :: row in b ==> row.peer == peer
    ensures Own(Others(a, peer) + b, q) == if q == peer then b else Own(a, q)
  {
    OwnJoined(Others(a, peer), b, q);
    OwnOfOthers(a, peer, q);
    OwnOfUniform(b, peer, q);
  }

  lemma OwnAfterReplacement(db: PeerDb, peer: int, json: Json, g: Generation, q: int)
    ensures Own(Replaced(db, peer, json, g).rows, q) == if q == peer then RowsFor(peer, json, g.records) else Own(db.rows, q)
  {
    InsertedAreOwn(peer, json, g.records);
    OwnOfJoin(db.rows, RowsFor(peer, json, g.records), peer, q);
  }

  /** The rows a peer should have after a run: those of its own fetch, else those it had. */
  ghost function Target(db: PeerDb, peer: int, json: Json, codec: Codec, cfg: Config, remote: Remote): (rows: multiset<PeerRow>) {
    if remote.urlBlank || Fetch(codec, cfg, remote).None? || peer !in db.last then multiset(Own(db.rows, peer))
    else multiset(RowsFor(peer, json, Fetch(codec, cfg, remote).value.records))
  }

  lemma AppliedOwn(db: PeerDb, peer: int, json: Json, g: Generation)
    requires KeysUnique(db.rows) && UniqueKeys(g.records) && AlreadyApplied(db, peer, json, g)
    ensures multiset(Own(db.rows, peer)) == multiset(RowsFor(peer, json, g.records))
  {
    OwnKeysUnique(db.rows, peer);
    FreshKeysUnique(peer, json, g.records);
    SameTriplesSameRows(Own(db.rows, peer), RowsFor(peer, json, g.records), peer);
  }

  lemma SyncedOwn(db: PeerDb, peer: int, json: Json, codec: Codec, cfg: Config, remote: Remote, q: int)
    requires KeysUnique(db.rows)
    ensures var after := Synced(db, peer, json, codec, cfg, remote).0;
            && (q != peer ==> Own(after.rows, q) == Own(db.rows, q) && (q in after.last <==> q in db.last))
            && (q in db.last && q != peer ==> after.last[q] == db.last[q])
            && multiset(Own(after.rows, peer)) == Target(db, peer, json, codec, cfg, remote)
            && after.last.Keys == db.last.Keys
  {
    if !remote.urlBlank && Fetch(codec, cfg, remote).Some? && peer in db.last {
      var g := Fetch(codec, cfg, remote).value;
      if AlreadyApplied(db, peer, json, g) {
        AppliedOwn(db, peer, json, g);
      } else {
        OwnAfterReplacement(db, peer, json, g, q);
        OwnAfterReplacement(db, peer, json, g, peer);
      }
    }
  }

  /** Peer number i was asked during the run, with what its rows should be. */
  ghost predicate MeetsTarget(after: PeerDb, before: PeerDb, json: Json, codec: Codec, cfg: Config, peer: int, remote: Remote) {
    multiset(Own(after.rows, peer)) == Target(before, peer, json, codec, cfg, remote)
  }

  /** Nothing of this peer has changed. */
  ghost predicate Unchanged(after: PeerDb, before: PeerDb, peer: int) {
    Own(after.rows, peer) == Own(before.rows, peer) && (peer in before.last ==> peer in after.last && after.last[peer] == before.last[peer])
  }

  lemma OneMorePeer(db: PeerDb, before: PeerDb, json: Json, codec: Codec, cfg: Config, peer: int, remote: Remote)
    requires KeysUnique(before.rows) && before.last.Keys == db.last.Keys && Unchanged(before, db, peer)
    ensures var after := Synced(before, peer, json, codec, cfg, remote).0;
            KeysUnique(after.rows) && after.last.Keys == db.last.Keys && MeetsTarget(after, db, json, codec, cfg, peer, remote)
  {
    SyncRefinesReplacement(before, peer, json, codec, cfg, remote);
    SyncedOwn(before, peer, json, codec, cfg, remote, peer);
  }

  lemma OtherPeerKept(db: PeerDb, before: PeerDb, json: Json, codec: Codec, cfg: Config, peer: int, remote: Remote, q: int)
    requires KeysUnique(before.rows) && q != peer && before.last.Keys == db.last.Keys
    ensures var after := Synced(before, peer, json, codec, cfg, remote).0;
            Own(after.rows, q) == Own(before.rows, q) && (Unchanged(before, db, q) ==> Unchanged(after, db, q))
  {
    SyncedOwn(before, peer, json, codec, cfg, remote, q);
  }

  ghost predicate Distinct(peers: seq<int>) {
    forall i, j :: 0 <= i < j < |peers| ==> peers[i] != peers[j]
  }

  lemma LastIsNew(peers: seq<int>)
    requires Distinct(peers) && peers != []
    ensures Distinct(peers[..|peers| - 1]) && peers[|peers| - 1] !in peers[..|peers| - 1]
  {
  }

  /** A full run leaves alone every peer that was not asked. */
  lemma {:induction false} RunKeepsOthers(db: PeerDb, json: Json, codec: Codec, cfg: Config, peers: seq<int>, remotes: seq<Remote>, q: int)
    requires |remotes| == |peers| && KeysUnique(db.rows) && q !in peers
    ensures var after := SyncedAll(db, json, codec, cfg, peers, remotes);
            KeysUnique(after.rows) && after.last.Keys == db.last.Keys && Unchanged(after, db, q)
  {
    if peers != [] {
      var n := |peers| - 1;
      var before := SyncedAll(db, json, codec, cfg, peers[..n], remotes[..n]);
      RunKeepsOthers(db, json, codec, cfg, peers[..n], remotes[..n], q);
      assert peers[n] in peers;
      SyncRefinesReplacement(before, peers[n], json, codec, cfg, remotes[n]);
      OtherPeerKept(db, before, json, codec, cfg, peers[n], remotes[n], q);
      SyncedOwn(before, peers[n], json, codec, cfg, remotes[n], q);
    }
  }

  /** A full run leaves each peer's rows a function of its own fetch alone. */
  lemma {:induction false} RunIsPerPeer(db: PeerDb, json: Json, codec: Codec, cfg: Config, peers: seq<int>, remotes: seq<Remote>, k: nat)
    requires |remotes| == |peers| && KeysUnique(db.rows) && Distinct(peers) && k < |peers|
    ensures var after := SyncedAll(db, json, codec, cfg, peers, remotes);
            && KeysUnique(after.rows) && after.last.Keys == db.last.Keys
            && MeetsTarget(after, db, json, codec, cfg, peers[k], remotes[k])
  {
    var n := |peers| - 1;
    var before := SyncedAll(db, json, codec, cfg, peers[..n], remotes[..n]);
    LastIsNew(peers);
    if k == n {
      RunKeepsOthers(db, json, codec, cfg, peers[..n], remotes[..n], peers[n]);
      OneMorePeer(db, before, json, codec, cfg, peers[n], remotes[n]);
    } else {
      RunIsPerPeer(db, json, codec, cfg, peers[..n], remotes[..n], k);
      SyncRefinesReplacement(before, peers[n], json, codec, cfg, remotes[n]);
      OtherPeerKept(db, before, json, codec, cfg, peers[n], remotes[n], peers[k]);
      SyncedOwn(before, peers[n], json, codec, cfg, remotes[n], peers[k]);
    }
  }

  /** The rows of a peer after a run: those it fetched, or those it had. */
  ghost predicate PeerInFields(before: PeerDb, after: PeerDb, json: Json, codec: Codec, cfg: Config, peer: int, remote: Remote) {
    if !remote.urlBlank && peer in before.last && Fetch(codec, cfg, remote).Some?
    then HoldsRecords(after.rows, peer, json, Fetch(codec, cfg, remote).value.records)
    else forall row: PeerRow :: row.peer == peer ==> (row in after.rows <==> row in before.rows)
  }

  lemma TargetInFields(before: PeerDb, after: PeerDb, json: Json, codec: Codec, cfg: Config, peer: int, remote: Remote)
    requires MeetsTarget(after, before, json, codec, cfg, peer, remote)
    ensures PeerInFields(before, after, json, codec, cfg, peer, remote)
  {
    if !remote.urlBlank && peer in before.last && Fetch(codec, cfg, remote).Some? {
      var records := Fetch(codec, cfg, remote).value.records;
      SameRowsSameTriples(Own(after.rows, peer), RowsFor(peer, json, records));
      SameTriplesExactly(after.rows, peer, json, records);
    } else {
      SameRowsSameTriples(Own(after.rows, peer), Own(before.rows, peer));
    }
  }

  lemma SameRowsSameTriples(a: seq<PeerRow>, b: seq<PeerRow>)
    requires multiset(a) == multiset(b)
    ensures forall row :: row in a <==> row in b
    ensures TripleSet(a) == TripleSet(b)
  {
    forall row: PeerRow ensures row in a <==> row in b {
      assert row in multiset(a) <==> row in multiset(b);
    }
  }

  lemma RunInFields(db: PeerDb, json: Json, codec: Codec, cfg: Config, peers: seq<int>, remotes: seq<Remote>)
    requires |remotes| == |peers| && KeysUnique(db.rows) && Distinct(peers)
    ensures var after := SyncedAll(db, json, codec, cfg, peers, remotes);
            && (forall k :: 0 <= k < |peers| ==> PeerInFields(db, after, json, codec, cfg, peers[k], remotes[k]))
            && after.last.Keys == db.last.Keys
  {
    var after := SyncedAll(db, json, codec, cfg, peers, remotes);
    forall k | 0 <= k < |peers|
      ensures PeerInFields(db, after, json, codec, cfg, peers[k], remotes[k]) && after.last.Keys == db.last.Keys
    {
      RunIsPerPeer(db, json, codec, cfg, peers, remotes, k);
      TargetInFields(db, after, json, codec, cfg, peers[k], remotes[k]);
    }
  }

  // ------------------------------------------------------------ the report

  /** How many peers have no address, or are known and could be fetched. */
  ghost function GoodCount(known: set<int>, codec: Codec, cfg: Config, peers: seq<int>, remotes: seq<Remote>): (n: nat)
    requires |remotes| == |peers|
  {
    if peers == [] then 0
    else
      var n := |peers| - 1;
      GoodCount(known, codec, cfg, peers[..n], remotes[..n])
      + if remotes[n].urlBlank || (peers[n] in known && Fetch(codec, cfg, remotes[n]).Some?) then 1 else 0
  }

  /** The fetch of this peer answers what the tables hold already. */
  ghost predicate BringsNothing(db: PeerDb, json: Json, codec: Codec, cfg: Config, peer: int, remote: Remote) {
    && !remote.urlBlank && peer in db.last && Fetch(codec, cfg, remote).Some?
    && var g := Fetch(codec, cfg, remote).value;
       db.last[peer] == Some(g.generation) && g.generation != "" && HoldsRecords(db.rows, peer, json, g.records)
  }

  ghost function IdleCount(db: PeerDb, json: Json, codec: Codec, cfg: Config, peers: seq<int>, remotes: seq<Remote>): (n: nat)
    requires |remotes| == |peers|
  {
    if peers == [] then 0
    else
      var n := |peers| - 1;
      IdleCount(db, json, codec, cfg, peers[..n], remotes[..n]) + if BringsNothing(db, json, codec, cfg, peers[n], remotes[n]) then 1 else 0
  }

  lemma SkipsExactly(db: PeerDb, before: PeerDb, json: Json, codec: Codec, cfg: Config, peer: int, remote: Remote)
    requires Unchanged(before, db, peer) && before.last.Keys == db.last.Keys
    ensures Skips(before, peer, json, codec, cfg, remote) <==> BringsNothing(db, json, codec, cfg, peer, remote)
  {
    if !remote.urlBlank && Fetch(codec, cfg, remote).Some? {
      var g := Fetch(codec, cfg, remote).value;
      AlreadyAppliedExactly(db, peer, json, g);
      assert AlreadyApplied(before, peer, json, g) <==> AlreadyApplied(db, peer, json, g);
    }
  }

  /** The counts of a run, from the tables it found and what the peers answered. */
  lemma {:induction false} ReportExactly(db: PeerDb, json: Json, codec: Codec, cfg: Config, peers: seq<int>, remotes: seq<Remote>)
    requires |remotes| == |peers| && KeysUnique(db.rows) && Distinct(peers)
    ensures var r := ReportOf(db, json, codec, cfg, peers, remotes);
            && r.ok == GoodCount(db.last.Keys, codec, cfg, peers, remotes) && r.failed == |peers| - r.ok
            && r.skipped == IdleCount(db, json, codec, cfg, peers, remotes)
  {
    if peers != [] {
      var n := |peers| - 1;
      LastIsNew(peers);
      ReportExactly(db, json, codec, cfg, peers[..n], remotes[..n]);
      RunKeepsOthers(db, json, codec, cfg, peers[..n], remotes[..n], peers[n]);
      var before := SyncedAll(db, json, codec, cfg, peers[..n], remotes[..n]);
      SyncRefinesReplacement(before, peers[n], json, codec, cfg, remotes[n]);
      SkipsExactly(db, before, json, codec, cfg, peers[n], remotes[n]);
    }
  }
}
