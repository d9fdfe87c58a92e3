/** Export then import: what a peer stores after fetching the dump this system publishes
    (services/fad_service.py, services/fad_client_service.py, routes/sas_sas_routes.py). */
module FadRoundTrip {
  import opened Wrappers
  import opened FadExport
  import opened FadImport

  /** The hash answers 40 lower-case hexadecimal digits. */
  ghost predicate Digests(codec: Codec) {
    forall s :: HexDigest(codec.sha1(s))
  }

  /** A ".." segment starts here. */
  predicate UpAt(path: string, i: nat) {
    && i + 2 <= |path| && path[i] == '.' && path[i + 1] == '.'
    && (i == 0 || path[i - 1] == '/') && (i + 2 == |path| || path[i + 2] == '/')
  }

  /** The server refuses paths with a backslash or a ".." segment. */
  predicate Refused(path: string) {
    '\\' in path || exists i :: 0 <= i < |path| && UpAt(path, i)
  }

  /** The published dump as the web server at `origin` hands it out. */
  function Hosted(dumps: seq<Dump>, origin: string): (r: Remote) {
    var d := Current(dumps);
    Remote(false, true, if d.Some? then Some(d.value.manifestJson) else None,
           (u: Url) => u.origin == origin,
           (u: Url) =>
             if d.None? || Refused(u.path) then None
             else match RowAt(d.value.files, Rooted(u.path))
               case Some(row) => Some(row.content)
               case None => None)
  }

  /** What the tables hold, as (type, id, record) triples in the order of the dump. */
  function Exported(tables: Tables, types: seq<string>): (r: seq<Triple>) {
    if types == [] then []
    else Exported(tables, types[..|types| - 1]) + TriplesOf(types[|types| - 1], tables(types[|types| - 1]))
  }

  predicate FitsCap(cfg: Config, size: int) {
    cfg.maxFileBytes > 0 ==> size <= cfg.maxFileBytes
  }

  /** What the two sides must agree on for an import to succeed. */
  ghost predicate Importable(cfg: Settings, tables: Tables, p: Payload, icfg: Config, origin: string) {
    && cfg.base.origin == origin && cfg.version == icfg.version
    && (forall m :: m in p.made ==> FitsCap(icfg, m.entry.size) && !Refused(m.row.path))
    && (forall t, item :: t in RECORD_TYPES && item in tables(t) ==> HasId(icfg, item))
    && UniqueKeys(Exported(tables, RECORD_TYPES))
  }

  // ------------------------------------------------------------ what is fetched

  lemma LowerHex(s: string)
    requires HexDigest(s)
    ensures Lower(s) == s
  {
    forall i | 0 <= i < |s| ensures Lower(s)[i] == s[i] {
      HexIsLower(s[i]);
    }
  }

  lemma HexIsLower(c: char)
    requires c in "0123456789abcdef"
    ensures LowerChar(c) == c
  {
  }

  function PageIn(codec: Codec, m: Made): (page: seq<Item>) {
    match codec.decodeEnvelope(m.row.content)
    case Some(e) => e.records
    case None => []
  }

  /** The triples of a list of files. */
  function Collected(codec: Codec, made: seq<Made>): (r: seq<Triple>) {
    if made == [] then []
    else Collected(codec, made[..|made| - 1]) + TriplesOf(made[|made| - 1].entry.recordType, PageIn(codec, made[|made| - 1]))
  }

  ghost predicate PageGood(codec: Codec, icfg: Config, m: Made) {
    FitsCap(icfg, m.entry.size) && !Refused(m.row.path) && forall item :: item in PageIn(codec, m) ==> HasId(icfg, item)
  }

  /** The setting of the lemmas below: `p` is published by a system without a base path. */
  ghost predicate Setting(codec: Codec, cfg: Settings, timestamp: string, p: Payload, dumps: seq<Dump>) {
    && Faithful(codec) && Digests(codec) && cfg.base.path == ""
    && MadeRight(codec, cfg, timestamp, p.made, RECORD_TYPES) && Current(dumps) == Some(DumpOf(p, true))
  }

  lemma HostedFile(codec: Codec, cfg: Settings, timestamp: string, p: Payload, dumps: seq<Dump>, origin: string, k: nat)
    requires Setting(codec, cfg, timestamp, p, dumps) && k < |p.made|
    ensures Hosted(dumps, origin).file(p.made[k].entry.url) == if Refused(p.made[k].row.path) then None else Some(p.made[k].row.content)
    ensures p.made[k].entry.url.origin == cfg.base.origin
    ensures EntryMatches(codec, p.made[k].entry, p.made[k].row.content)
  {
    assert p.made[k] in p.made;
    MadeFields(codec, cfg, timestamp, p.made, k);
    assert Rows(p.made)[k] == p.made[k].row;
    assert cfg.base.path + p.made[k].row.path == p.made[k].row.path;
    RowAtOwn(Rows(p.made), k);
  }

  lemma MadeContent(codec: Codec, cfg: Settings, timestamp: string, made: seq<Made>, k: nat)
    requires Faithful(codec) && MadeRight(codec, cfg, timestamp, made, RECORD_TYPES) && k < |made|
    ensures codec.decodeEnvelope(made[k].row.content) == Some(Envelope(timestamp, timestamp, PageIn(codec, made[k])))
    ensures made[k].entry.recordType in RECORD_TYPES && made[k].entry.version == cfg.version
  {
    assert made[k] in made;
    var t: string, i: nat, page: seq<Item> :| t in RECORD_TYPES && made[k] == MakeDumpFile(codec, cfg, timestamp, t, i, page);
  }

  /** Everything the fetch of one published file depends on. */
  lemma BodyExactly(codec: Codec, cfg: Settings, icfg: Config, timestamp: string, p: Payload, dumps: seq<Dump>, origin: string, k: nat)
    requires Setting(codec, cfg, timestamp, p, dumps) && k < |p.made|
    ensures Body(codec, icfg, Hosted(dumps, origin), timestamp, p.made[k].entry) ==
            if cfg.base.origin == origin && PageGood(codec, icfg, p.made[k])
            then Some(Envelope(timestamp, timestamp, PageIn(codec, p.made[k]))) else None
  {
    HostedFile(codec, cfg, timestamp, p, dumps, origin, k);
    MadeContent(codec, cfg, timestamp, p.made, k);
    LowerHex(codec.sha1(p.made[k].row.content));
  }

  ghost predicate AllGood(codec: Codec, icfg: Config, made: seq<Made>) {
    forall m :: m in made ==> PageGood(codec, icfg, m)
  }

  lemma GatheredStep(codec: Codec, icfg: Config, remote: Remote, generation: string, files: seq<Entry>, e: Entry)
    ensures Gathered(codec, icfg, remote, generation, files + [e]) ==
            if Gathered(codec, icfg, remote, generation, files).Some? && Body(codec, icfg, remote, generation, e).Some?
            then Some(Gathered(codec, icfg, remote, generation, files).value
                      + TriplesOf(e.recordType, Body(codec, icfg, remote, generation, e).value.records))
            else None
  {
    assert (files + [e])[..|files|] == files;
  }

  lemma CollectedStep(codec: Codec, made: seq<Made>, m: Made)
    ensures Collected(codec, made + [m]) == Collected(codec, made) + TriplesOf(m.entry.recordType, PageIn(codec, m))
  {
    assert (made + [m])[..|made|] == made;
  }

  lemma AllGoodStep(codec: Codec, icfg: Config, made: seq<Made>, m: Made)
    ensures AllGood(codec, icfg, made + [m]) <==> AllGood(codec, icfg, made) && PageGood(codec, icfg, m)
  {
    assert forall x :: x in made ==> x in made + [m];
    assert m in made + [m];
  }

  ghost predicate BodyAs(codec: Codec, icfg: Config, remote: Remote, generation: string, m: Made, reachable: bool) {
    Body(codec, icfg, remote, generation, m.entry) ==
    if reachable && PageGood(codec, icfg, m) then Some(Envelope(generation, generation, PageIn(codec, m))) else None
  }

  /** All files together. */
  lemma {:induction false} GatheredExactly(codec: Codec, icfg: Config, remote: Remote, generation: string, made: seq<Made>, reachable: bool)
    requires forall m :: m in made ==> BodyAs(codec, icfg, remote, generation, m, reachable)
    ensures Gathered(codec, icfg, remote, generation, Entries(made)) ==
            if made == [] || (reachable && AllGood(codec, icfg, made)) then Some(Collected(codec, made)) else None
  {
    if made != [] {
      var front, m := made[..|made| - 1], made[|made| - 1];
      assert made == front + [m];
      GatheredExactly(codec, icfg, remote, generation, front, reachable);
      assert BodyAs(codec, icfg, remote, generation, m, reachable);
      GatheredStep(codec, icfg, remote, generation, Entries(front), m.entry);
      AllGoodStep(codec, icfg, front, m);
    }
  }

  // -------------------------------------------------- files back to the tables

  lemma {:induction false} TriplesJoin(t: string, a: seq<Item>, b: seq<Item>)
    ensures TriplesOf(t, a + b) == TriplesOf(t, a) + TriplesOf(t, b)
  {
    forall i | 0 <= i < |a + b| ensures TriplesOf(t, a + b)[i] == (TriplesOf(t, a) + TriplesOf(t, b))[i] {
    }
  }

  lemma JoinStep<T>(a: seq<T>, b: seq<T>)
    requires b != []
    ensures b == b[..|b| - 1] + [b[|b| - 1]] && a + b == (a + b[..|b| - 1]) + [b[|b| - 1]]
  {
  }

  lemma Associative<T>(a: seq<T>, b: seq<T>, c: seq<T>)
    ensures (a + b) + c == a + (b + c)
  {
  }

  lemma {:induction false} CollectedJoin(codec: Codec, a: seq<Made>, b: seq<Made>)
    ensures Collected(codec, a + b) == Collected(codec, a) + Collected(codec, b)
    decreases |b|
  {
    if b == [] {
      assert a + b == a;
    } else {
      var front, last := b[..|b| - 1], b[|b| - 1];
      var triples := TriplesOf(last.entry.recordType, PageIn(codec, last));
      CollectedJoin(codec, a, front);
      JoinStep(a, b);
      CollectedStep(codec, a + front, last);
      Associative(Collected(codec, a), Collected(codec, front), triples);
    }
  }

  lemma PageOfMade(codec: Codec, cfg: Settings, timestamp: string, t: string, i: nat, page: seq<Item>)
    requires Faithful(codec)
    ensures PageIn(codec, MakeDumpFile(codec, cfg, timestamp, t, i, page)) == page
  {
  }

  lemma TypeFilesLast(codec: Codec, cfg: Settings, timestamp: string, t: string, front: seq<seq<Item>>, page: seq<Item>)
    ensures TypeFiles(codec, cfg, timestamp, t, front + [page]) ==
            TypeFiles(codec, cfg, timestamp, t, front) + [MakeDumpFile(codec, cfg, timestamp, t, |front|, page)]
  {
    assert (front + [page])[..|front|] == front;
  }

  lemma CollectedPage(codec: Codec, cfg: Settings, timestamp: string, t: string, made: seq<Made>, i: nat, page: seq<Item>)
    requires Faithful(codec)
    ensures Collected(codec, made + [MakeDumpFile(codec, cfg, timestamp, t, i, page)]) == Collected(codec, made) + TriplesOf(t, page)
  {
    CollectedStep(codec, made, MakeDumpFile(codec, cfg, timestamp, t, i, page));
    PageOfMade(codec, cfg, timestamp, t, i, page);
  }

  lemma {:induction false} CollectedType(codec: Codec, cfg: Settings, timestamp: string, t: string, pages: seq<seq<Item>>)
    requires Faithful(codec)
    ensures Collected(codec, TypeFiles(codec, cfg, timestamp, t, pages)) == TriplesOf(t, Flatten(pages))
  {
    if pages != [] {
      var front, page := pages[..|pages| - 1], pages[|pages| - 1];
      assert pages == front + [page];
      CollectedType(codec, cfg, timestamp, t, front);
      TypeFilesLast(codec, cfg, timestamp, t, front, page);
      CollectedPage(codec, cfg, timestamp, t, TypeFiles(codec, cfg, timestamp, t, front), |front|, page);
      FlattenAppend(front, page);
      TriplesJoin(t, Flatten(front), page);
    }
  }

  /** The files hold exactly the tables: nothing lost, duplicated, reordered or retyped. */
  lemma {:induction false} FilesHoldTables(codec: Codec, cfg: Settings, timestamp: string, tables: Tables, types: seq<string>)
    requires Faithful(codec) && cfg.pageSize > 0
    ensures Collected(codec, AllFiles(codec, cfg, timestamp, tables, types)) == Exported(tables, types)
  {
    if types != [] {
      var n := |types| - 1;
      FilesHoldTables(codec, cfg, timestamp, tables, types[..n]);
      var pages := Pages(tables(types[n]), cfg.pageSize);
      CollectedJoin(codec, AllFiles(codec, cfg, timestamp, tables, types[..n]), TypeFiles(codec, cfg, timestamp, types[n], pages));
      CollectedType(codec, cfg, timestamp, types[n], pages);
      PagesPartition(tables(types[n]), cfg.pageSize);
    }
  }

  predicate ItemsGood(icfg: Config, items: seq<Item>) {
    forall item :: item in items ==> HasId(icfg, item)
  }

  lemma GoodJoin(icfg: Config, a: seq<Item>, b: seq<Item>)
    ensures ItemsGood(icfg, a + b) <==> ItemsGood(icfg, a) && ItemsGood(icfg, b)
  {
    assert forall item :: item in a + b <==> item in a || item in b;
  }

  predicate PagesGood(icfg: Config, pages: seq<seq<Item>>) {
    forall page :: page in pages ==> ItemsGood(icfg, page)
  }

  lemma {:induction false} GoodPagesGoodTable(icfg: Config, pages: seq<seq<Item>>)
    ensures ItemsGood(icfg, Flatten(pages)) <==> PagesGood(icfg, pages)
  {
    if pages != [] {
      GoodPagesGoodTable(icfg, pages[1..]);
      GoodJoin(icfg, pages[0], Flatten(pages[1..]));
      assert pages == [pages[0]] + pages[1..];
      assert PagesGood(icfg, pages) <==> ItemsGood(icfg, pages[0]) && PagesGood(icfg, pages[1..]);
    }
  }

  lemma PagesOfType(codec: Codec, cfg: Settings, icfg: Config, timestamp: string, t: string, pages: seq<seq<Item>>)
    requires Faithful(codec)
    ensures PagesGood(icfg, pages)
            <==> forall m :: m in TypeFiles(codec, cfg, timestamp, t, pages) ==> ItemsGood(icfg, PageIn(codec, m))
  {
    var made := TypeFiles(codec, cfg, timestamp, t, pages);
    forall i | 0 <= i < |pages| ensures PageIn(codec, made[i]) == pages[i] && made[i] in made && pages[i] in pages {
      TypeFileAt(codec, cfg, timestamp, t, pages, i);
    }
  }

  /** Every file has good records exactly when every table has. */
  lemma {:induction false} GoodFilesGoodTables(codec: Codec, cfg: Settings, icfg: Config, timestamp: string, tables: Tables, types: seq<string>)
    requires Faithful(codec) && cfg.pageSize > 0
    ensures (forall m :: m in AllFiles(codec, cfg, timestamp, tables, types) ==> ItemsGood(icfg, PageIn(codec, m)))
            <==> forall t :: t in types ==> ItemsGood(icfg, tables(t))
  {
    if types != [] {
      var n := |types| - 1;
      var t := types[n];
      GoodFilesGoodTables(codec, cfg, icfg, timestamp, tables, types[..n]);
      var pages := Pages(tables(t), cfg.pageSize);
      PagesPartition(tables(t), cfg.pageSize);
      GoodPagesGoodTable(icfg, pages);
      PagesOfType(codec, cfg, icfg, timestamp, t, pages);
      assert types == types[..n] + [t];
    }
  }

  // ---------------------------------------------------------------- theorems

  ghost predicate AllFit(icfg: Config, made: seq<Made>) {
    forall m :: m in made ==> FitsCap(icfg, m.entry.size)
  }

  lemma EntryExactly(codec: Codec, cfg: Settings, icfg: Config, timestamp: string, made: seq<Made>, k: nat)
    requires Faithful(codec) && Digests(codec) && MadeRight(codec, cfg, timestamp, made, RECORD_TYPES) && k < |made|
    ensures EntryOk(icfg, made[k].entry) <==> cfg.version == icfg.version && FitsCap(icfg, made[k].entry.size)
  {
    MadeFields(codec, cfg, timestamp, made, k);
    MadeContent(codec, cfg, timestamp, made, k);
    LowerHex(codec.sha1(made[k].row.content));
  }

  lemma EntriesOfMade(made: seq<Made>, good: Entry -> bool)
    ensures (forall e :: e in Entries(made) ==> good(e)) <==> forall m :: m in made ==> good(m.entry)
  {
    var files := Entries(made);
    forall k | 0 <= k < |made| ensures files[k] in files && made[k] in made {
    }
    if forall e :: e in files ==> good(e) {
      forall m | m in made ensures good(m.entry) {
        var k :| 0 <= k < |made| && made[k] == m;
        assert files[k] in files;
      }
    }
    if forall m :: m in made ==> good(m.entry) {
      forall e | e in files ensures good(e) {
        var k :| 0 <= k < |files| && files[k] == e;
        assert made[k] in made;
      }
    }
  }

  lemma AllEntriesExactly(codec: Codec, cfg: Settings, icfg: Config, timestamp: string, made: seq<Made>)
    requires Faithful(codec) && Digests(codec) && MadeRight(codec, cfg, timestamp, made, RECORD_TYPES) && made != []
    ensures (forall m :: m in made ==> EntryOk(icfg, m.entry)) <==> cfg.version == icfg.version && AllFit(icfg, made)
  {
    forall m | m in made ensures EntryOk(icfg, m.entry) <==> cfg.version == icfg.version && FitsCap(icfg, m.entry.size) {
      var k :| 0 <= k < |made| && made[k] == m;
      EntryExactly(codec, cfg, icfg, timestamp, made, k);
    }
    assert made[0] in made;
  }

  lemma ManifestExactly(codec: Codec, cfg: Settings, icfg: Config, timestamp: string, made: seq<Made>)
    requires Faithful(codec) && Digests(codec) && MadeRight(codec, cfg, timestamp, made, RECORD_TYPES)
    requires made != [] && |made| <= MANIFEST_MAX_FILES
    ensures ManifestOk(icfg, Manifest(Entries(made), timestamp, DESCRIPTION)) <==> cfg.version == icfg.version && AllFit(icfg, made)
  {
    EntriesOfMade(made, (e: Entry) => EntryOk(icfg, e));
    AllEntriesExactly(codec, cfg, icfg, timestamp, made);
  }

  /** A fetch, once its parts are known. */
  lemma FetchFromParts(codec: Codec, icfg: Config, remote: Remote, m: Manifest, records: seq<Triple>, ok: bool, good: bool)
    requires !remote.urlBlank && remote.dumpAllowed && remote.manifest.Some? && codec.decodeManifest(remote.manifest.value) == Some(m)
    requires ManifestOk(icfg, m) <==> ok
    requires Gathered(codec, icfg, remote, m.generation, m.files) == if good then Some(records) else None
    ensures Fetch(codec, icfg, remote) ==
            if ok && good && UniqueKeys(records) then Some(Generation(m.generation, m.description, records)) else None
  {
  }

  /** What publication leaves: the payload is right and current. */
  lemma PublishedSetting(codec: Codec, cfg: Settings, timestamp: string, tables: Tables, dumps: seq<Dump>)
    requires cfg.pageSize > 0 && Faithful(codec) && Digests(codec) && cfg.base.path == "" && Snapshot(codec, cfg, timestamp, tables).Ok?
    ensures var p := Snapshot(codec, cfg, timestamp, tables).value;
            && Setting(codec, cfg, timestamp, p, AfterPublish(codec, dumps, p))
            && p.made == AllFiles(codec, cfg, timestamp, tables, RECORD_TYPES) && p.made != [] && |p.made| <= MANIFEST_MAX_FILES
            && codec.decodeManifest(p.manifestJson) == Some(Manifest(Entries(p.made), timestamp, DESCRIPTION))
  {
    var p := Snapshot(codec, cfg, timestamp, tables).value;
    IntegrityExactly(codec, cfg, timestamp, tables, false);
    assert Current(AfterPublish(codec, dumps, p)) == Some(DumpOf(p, true));
    assert RECORD_TYPES[..|RECORD_TYPES|] == RECORD_TYPES;
    AllFilesRight(codec, cfg, timestamp, tables, |RECORD_TYPES|);
    AllTypesPresent(p.made);
  }

  /** The round trip, exactly: fetching what was just published answers the exported triples in order
      when the two sides agree and the ids are usable, and fails otherwise.  The page size does not
      matter. */
  lemma FetchOfPublished(codec: Codec, cfg: Settings, icfg: Config, timestamp: string, tables: Tables, dumps: seq<Dump>, origin: string)
    requires cfg.pageSize > 0 && Faithful(codec) && Digests(codec) && cfg.base.path == ""
    requires Snapshot(codec, cfg, timestamp, tables).Ok?
    ensures var p := Snapshot(codec, cfg, timestamp, tables).value;
            Fetch(codec, icfg, Hosted(AfterPublish(codec, dumps, p), origin)) ==
            if Importable(cfg, tables, p, icfg, origin) then Some(Generation(timestamp, DESCRIPTION, Exported(tables, RECORD_TYPES)))
            else None
  {
    var p := Snapshot(codec, cfg, timestamp, tables).value;
    var after := AfterPublish(codec, dumps, p);
    PublishedSetting(codec, cfg, timestamp, tables, dumps);
    ManifestExactly(codec, cfg, icfg, timestamp, p.made);
    forall m | m in p.made ensures BodyAs(codec, icfg, Hosted(after, origin), timestamp, m, cfg.base.origin == origin) {
      var k :| 0 <= k < |p.made| && p.made[k] == m;
      BodyExactly(codec, cfg, icfg, timestamp, p, after, origin, k);
    }
    GatheredExactly(codec, icfg, Hosted(after, origin), timestamp, p.made, cfg.base.origin == origin);
    FilesHoldTables(codec, cfg, timestamp, tables, RECORD_TYPES);
    GoodFilesGoodTables(codec, cfg, icfg, timestamp, tables, RECORD_TYPES);
    AgreementIsImportable(codec, cfg, icfg, tables, p, origin);
    FetchFromParts(codec, icfg, Hosted(after, origin), Manifest(Entries(p.made), timestamp, DESCRIPTION), Exported(tables, RECORD_TYPES),
                   cfg.version == icfg.version && AllFit(icfg, p.made), cfg.base.origin == origin && AllGood(codec, icfg, p.made));
  }

  lemma AgreementIsImportable(codec: Codec, cfg: Settings, icfg: Config, tables: Tables, p: Payload, origin: string)
    requires (forall m :: m in p.made ==> ItemsGood(icfg, PageIn(codec, m))) <==> forall t :: t in RECORD_TYPES ==> ItemsGood(icfg, tables(t))
    ensures Importable(cfg, tables, p, icfg, origin)
            <==> (cfg.base.origin == origin && cfg.version == icfg.version && AllFit(icfg, p.made)
                  && AllGood(codec, icfg, p.made) && UniqueKeys(Exported(tables, RECORD_TYPES)))
  {
    assert (forall t, item :: t in RECORD_TYPES && item in tables(t) ==> HasId(icfg, item))
           <==> forall t :: t in RECORD_TYPES ==> ItemsGood(icfg, tables(t));
    assert AllFit(icfg, p.made) ==>
             (AllGood(codec, icfg, p.made)
              <==> (forall m :: m in p.made ==> ItemsGood(icfg, PageIn(codec, m))) && forall m :: m in p.made ==> !Refused(m.row.path));
  }

  // ------------------------------------------------- whatever a server answers

  /** No file that this remote serves has the digest of a published file without being that file. */
  ghost predicate NoCollision(codec: Codec, made: seq<Made>, remote: Remote) {
    forall m :: m in made ==>
      match remote.file(m.entry.url)
      case Some(content) => codec.sha1(content) == codec.sha1(m.row.content) ==> content == m.row.content
      case None => true
  }

  /** A file that passes the importer's checks is the published one. */
  lemma BodyIsPublished(codec: Codec, cfg: Settings, icfg: Config, timestamp: string, made: seq<Made>, remote: Remote, k: nat)
    requires Faithful(codec) && Digests(codec) && MadeRight(codec, cfg, timestamp, made, RECORD_TYPES) && NoCollision(codec, made, remote)
    requires k < |made| && Body(codec, icfg, remote, timestamp, made[k].entry).Some?
    ensures Body(codec, icfg, remote, timestamp, made[k].entry).value.records == PageIn(codec, made[k])
  {
    assert made[k] in made;
    MadeFields(codec, cfg, timestamp, made, k);
    MadeContent(codec, cfg, timestamp, made, k);
    LowerHex(codec.sha1(made[k].row.content));
  }

  lemma {:induction false} GatheredIsPublished(codec: Codec, icfg: Config, remote: Remote, generation: string, made: seq<Made>)
    requires forall m :: m in made && Body(codec, icfg, remote, generation, m.entry).Some? ==>
                           Body(codec, icfg, remote, generation, m.entry).value.records == PageIn(codec, m)
    requires Gathered(codec, icfg, remote, generation, Entries(made)).Some?
    ensures Gathered(codec, icfg, remote, generation, Entries(made)) == Some(Collected(codec, made))
  {
    if made != [] {
      var front, m := made[..|made| - 1], made[|made| - 1];
      assert made == front + [m];
      GatheredStep(codec, icfg, remote, generation, Entries(front), m.entry);
      GatheredIsPublished(codec, icfg, remote, generation, front);
    }
  }

  /** Safety against any server, and against a new dump published in the middle of a fetch: with the
      manifest of a payload and without a digest collision, a fetch answers the exported triples of
      that payload or fails, whatever the files it is served. */
  lemma FetchIsAllOrNothing(codec: Codec, cfg: Settings, icfg: Config, timestamp: string, tables: Tables, remote: Remote)
    requires cfg.pageSize > 0 && Faithful(codec) && Digests(codec) && Snapshot(codec, cfg, timestamp, tables).Ok?
    requires remote.manifest == Some(Snapshot(codec, cfg, timestamp, tables).value.manifestJson)
    requires NoCollision(codec, Snapshot(codec, cfg, timestamp, tables).value.made, remote)
    ensures Fetch(codec, icfg, remote).Some? ==>
              Fetch(codec, icfg, remote).value == Generation(timestamp, DESCRIPTION, Exported(tables, RECORD_TYPES))
  {
    var made := Snapshot(codec, cfg, timestamp, tables).value.made;
    assert RECORD_TYPES[..|RECORD_TYPES|] == RECORD_TYPES;
    AllFilesRight(codec, cfg, timestamp, tables, |RECORD_TYPES|);
    assert codec.decodeManifest(remote.manifest.value) == Some(Manifest(Entries(made), timestamp, DESCRIPTION));
    if Fetch(codec, icfg, remote).Some? {
      forall m | m in made && Body(codec, icfg, remote, timestamp, m.entry).Some?
        ensures Body(codec, icfg, remote, timestamp, m.entry).value.records == PageIn(codec, m)
      {
        var k :| 0 <= k < |made| && made[k] == m;
        BodyIsPublished(codec, cfg, icfg, timestamp, made, remote, k);
      }
      GatheredIsPublished(codec, icfg, remote, timestamp, made);
      FilesHoldTables(codec, cfg, timestamp, tables, RECORD_TYPES);
    }
  }

  /** The row of the peer that stores a record of this type. */
  predicate IsRowOf(row: PeerRow, peer: int, json: Json, t: string, item: Item) {
    row.peer == peer && row.recordType == t && Some(row.id) == item.id && row.json == json(item)
  }

  /** Exactly one row of the peer has the type and the id of this record, and it stores the record. */
  ghost predicate StoredOnce(rows: seq<PeerRow>, peer: int, json: Json, t: string, item: Item) {
    exists i :: 0 <= i < |rows| && IsRowOf(rows[i], peer, json, t, item)
      && forall k :: 0 <= k < |rows| && k != i ==> !(rows[k].peer == peer && rows[k].recordType == t && Some(rows[k].id) == item.id)
  }

  predicate FromTable(row: PeerRow, peer: int, json: Json, tables: Tables, types: seq<string>) {
    exists n, k :: 0 <= n < |types| && 0 <= k < |tables(types[n])| && IsRowOf(row, peer, json, types[n], tables(types[n])[k])
  }

  /** Every record of every table is stored once for the peer, and the peer has no other rows. */
  ghost predicate HoldsTables(rows: seq<PeerRow>, peer: int, json: Json, tables: Tables, types: seq<string>) {
    && (forall n, k :: 0 <= n < |types| && 0 <= k < |tables(types[n])| ==> StoredOnce(rows, peer, json, types[n], tables(types[n])[k]))
    && (forall i :: 0 <= i < |rows| && rows[i].peer == peer ==> FromTable(rows[i], peer, json, tables, types))
  }

  lemma {:induction false} ExportedHasRecord(tables: Tables, types: seq<string>, n: nat, k: nat) returns (j: nat)
    requires n < |types| && k < |tables(types[n])| && tables(types[n])[k].id.Some?
    ensures j < |Exported(tables, types)|
    ensures Exported(tables, types)[j] == Triple(types[n], tables(types[n])[k].id.value, tables(types[n])[k])
  {
    var last := |types| - 1;
    if n < last {
      j := ExportedHasRecord(tables, types[..last], n, k);
    } else {
      j := |Exported(tables, types[..last])| + k;
    }
  }

  lemma {:induction false} RecordOfExported(tables: Tables, types: seq<string>, j: nat) returns (n: nat, k: nat)
    requires j < |Exported(tables, types)|
    ensures n < |types| && k < |tables(types[n])|
    ensures Exported(tables, types)[j].recordType == types[n] && Exported(tables, types)[j].item == tables(types[n])[k]
    ensures tables(types[n])[k].id.Some? ==> Some(Exported(tables, types)[j].id) == tables(types[n])[k].id
  {
    var last := |types| - 1;
    var before := |Exported(tables, types[..last])|;
    if j < before {
      n, k := RecordOfExported(tables, types[..last], j);
    } else {
      n, k := last, j - before;
    }
  }

  lemma HeldOnce(rows: seq<PeerRow>, peer: int, json: Json, t: string, item: Item, i: nat)
    requires KeysUnique(rows) && i < |rows| && IsRowOf(rows[i], peer, json, t, item)
    ensures StoredOnce(rows, peer, json, t, item)
  {
    forall k | 0 <= k < |rows| && k != i ensures !(rows[k].peer == peer && rows[k].recordType == t && Some(rows[k].id) == item.id) {
      if k < i {
        assert !SameKey(rows[k], rows[i]);
      } else {
        assert !SameKey(rows[i], rows[k]);
      }
    }
  }

  /** What the exported triples are in terms of the tables. */
  lemma HoldsExported(rows: seq<PeerRow>, peer: int, json: Json, tables: Tables, types: seq<string>)
    requires KeysUnique(rows) && HoldsRecords(rows, peer, json, Exported(tables, types))
    requires forall t, item :: t in types && item in tables(t) ==> item.id.Some?
    ensures HoldsTables(rows, peer, json, tables, types)
  {
    var triples := Exported(tables, types);
    forall n, k | 0 <= n < |types| && 0 <= k < |tables(types[n])| ensures StoredOnce(rows, peer, json, types[n], tables(types[n])[k]) {
      assert tables(types[n])[k] in tables(types[n]);
      var j := ExportedHasRecord(tables, types, n, k);
      assert InSomeRow(rows, peer, json, triples[j]);
      var i :| 0 <= i < |rows| && Stores(rows[i], peer, json, triples[j]);
      HeldOnce(rows, peer, json, types[n], tables(types[n])[k], i);
    }
    forall i | 0 <= i < |rows| && rows[i].peer == peer ensures FromTable(rows[i], peer, json, tables, types) {
      assert StoresSome(rows[i], peer, json, triples);
      var j :| 0 <= j < |triples| && Stores(rows[i], peer, json, triples[j]);
      var n, k := RecordOfExported(tables, types, j);
      assert tables(types[n])[k] in tables(types[n]);
      assert IsRowOf(rows[i], peer, json, types[n], tables(types[n])[k]);
    }
  }

  /** Export then import is the identity: the importing side ends with exactly the exported triples
      as this peer's rows, whatever it held before and whichever branch it took. */
  lemma ImportStoresExported(codec: Codec, cfg: Settings, icfg: Config, timestamp: string, tables: Tables, dumps: seq<Dump>, origin: string,
                             db: PeerDb, peer: int, json: Json)
    requires cfg.pageSize > 0 && Faithful(codec) && Digests(codec) && cfg.base.path == ""
    requires Snapshot(codec, cfg, timestamp, tables).Ok?
    requires Importable(cfg, tables, Snapshot(codec, cfg, timestamp, tables).value, icfg, origin)
    requires KeysUnique(db.rows) && peer in db.last
    ensures var remote := Hosted(AfterPublish(codec, dumps, Snapshot(codec, cfg, timestamp, tables).value), origin);
            var r := Synced(db, peer, json, codec, icfg, remote);
            && r.1 && peer in r.0.last && r.0.last[peer] == Some(timestamp)
            && HoldsTables(r.0.rows, peer, json, tables, ["cbsd", "zone", "esc_sensor", "coordination"])
            && SameElsewhere(db.rows, r.0.rows, peer)
  {
    var remote := Hosted(AfterPublish(codec, dumps, Snapshot(codec, cfg, timestamp, tables).value), origin);
    FetchOfPublished(codec, cfg, icfg, timestamp, tables, dumps, origin);
    forall t, item | t in RECORD_TYPES && item in tables(t) ensures item.id.Some? {
      assert HasId(icfg, item);
    }
    SyncStoresTables(db, peer, json, codec, icfg, remote, timestamp, tables);
  }

  lemma SyncStoresTables(db: PeerDb, peer: int, json: Json, codec: Codec, icfg: Config, remote: Remote, timestamp: string, tables: Tables)
    requires KeysUnique(db.rows) && peer in db.last && !remote.urlBlank
    requires Fetch(codec, icfg, remote) == Some(Generation(timestamp, DESCRIPTION, Exported(tables, RECORD_TYPES)))
    requires forall t, item :: t in RECORD_TYPES && item in tables(t) ==> item.id.Some?
    ensures var r := Synced(db, peer, json, codec, icfg, remote);
            && r.1 && peer in r.0.last && r.0.last[peer] == Some(timestamp)
            && HoldsTables(r.0.rows, peer, json, tables, RECORD_TYPES)
            && SameElsewhere(db.rows, r.0.rows, peer)
  {
    SyncStoresFetched(db, peer, json, codec, icfg, remote, Generation(timestamp, DESCRIPTION, Exported(tables, RECORD_TYPES)));
    HoldsExported(Synced(db, peer, json, codec, icfg, remote).0.rows, peer, json, tables, RECORD_TYPES);
  }

  lemma SyncStoresFetched(db: PeerDb, peer: int, json: Json, codec: Codec, icfg: Config, remote: Remote, g: Generation)
    requires KeysUnique(db.rows) && peer in db.last && !remote.urlBlank && Fetch(codec, icfg, remote) == Some(g)
    ensures var r := Synced(db, peer, json, codec, icfg, remote);
            && r.1 && peer in r.0.last && r.0.last[peer] == Some(g.generation)
            && KeysUnique(r.0.rows) && HoldsRecords(r.0.rows, peer, json, g.records)
            && SameElsewhere(db.rows, r.0.rows, peer)
  {
    SyncRefinesReplacement(db, peer, json, codec, icfg, remote);
    AlreadyAppliedExactly(db, peer, json, g);
    ReplacedExactly(db, peer, json, g);
    ReplacedHolds(db.rows, Replaced(db, peer, json, g).rows, peer, json, g.records);
  }
}
