/** The Full Activity Dump exporter (services/fad_service.py): pages, manifest, integrity check and
    publication.  Encoders and the hash are parameters. */
module FadExport {
  import opened Wrappers

  /** A record as the dump carries it; `id` is None when it has no id member. */
  datatype Item = Item(id: Option<string>, body: string)

  datatype Envelope = Envelope(startTime: string, endTime: string, records: seq<Item>)

  datatype Url = Url(origin: string, path: string)

  datatype Entry = Entry(url: Url, checksum: string, size: int, version: string, recordType: string)

  datatype Manifest = Manifest(files: seq<Entry>, generation: string, description: string)

  /** Decoders answer None for text that is not a JSON object with the required members. */
  datatype Codec = Codec(
    encodeEnvelope: Envelope -> string, decodeEnvelope: string -> Option<Envelope>,
    encodeManifest: Manifest -> string, decodeManifest: string -> Option<Manifest>,
    sha1: string -> string)

  /** Decoding undoes encoding. */
  ghost predicate Faithful(codec: Codec) {
    && (forall e :: codec.decodeEnvelope(codec.encodeEnvelope(e)) == Some(e))
    && (forall m :: codec.decodeManifest(codec.encodeManifest(m)) == Some(m))
  }

  /** `base` is the public base URL without trailing slashes. */
  datatype Settings = Settings(base: Url, version: string, pageSize: nat)

  datatype FileRow = FileRow(recordType: string, path: string, checksum: string, size: int, content: string)

  datatype Made = Made(entry: Entry, row: FileRow)

  datatype Payload = Payload(timestamp: string, manifestJson: string, made: seq<Made>)

  datatype Dump = Dump(generation: string, manifestJson: string, files: seq<FileRow>, ready: bool, published: bool)

  datatype Failure = ChecksumMismatch | SizeMismatch | TooManyFiles | TimestampMismatch | IntegrityFailed | FetchFailed

  const MANIFEST_MAX_FILES: nat := 101
  const RECORD_TYPES: seq<string> := ["cbsd", "zone", "esc_sensor", "coordination"]
  const DESCRIPTION: string := "Full activity dump files"

  // ------------------------------------------------------------------ pages

  function Pages(records: seq<Item>, size: nat): (r: seq<seq<Item>>)
    requires size > 0
    ensures r != []
  {
    if |records| <= size then [records] else [records[..size]] + Pages(records[size..], size)
  }

  function Flatten(pages: seq<seq<Item>>): (r: seq<Item>) {
    if pages == [] then [] else pages[0] + Flatten(pages[1..])
  }

  function Smaller(a: nat, b: nat): (r: nat) { if a < b then a else b }

  lemma {:induction false} FlattenAppend(pages: seq<seq<Item>>, page: seq<Item>)
    ensures Flatten(pages + [page]) == Flatten(pages) + page
  {
    if pages == [] {
      assert [] + [page] == [page];
    } else {
      assert (pages + [page])[1..] == pages[1..] + [page];
      FlattenAppend(pages[1..], page);
    }
  }

  /** Always at least one page, possibly empty. */
  method ChunkRecords(records: seq<Item>, size: nat) returns (pages: seq<seq<Item>>)
    requires size > 0
    ensures pages == Pages(records, size)
  {
    if records == [] {
      return [[]];
    }
    pages := [];
    var i := 0;
    while i < |records|
      invariant 0 <= i
      invariant i < |records| ==> pages + Pages(records[i..], size) == Pages(records, size)
      invariant i >= |records| ==> pages == Pages(records, size)
    {
      var page := records[i..Smaller(i + size, |records|)];
      ghost var before := pages;
      pages := pages + [page];
      if i + size < |records| {
        assert records[i..][size..] == records[i + size..];
        assert records[i..][..size] == page;
        assert before + ([page] + Pages(records[i + size..], size)) == pages + Pages(records[i + size..], size);
      } else {
        assert records[i..] == page;
      }
      i := i + size;
    }
  }

  /** Paging loses nothing, keeps the order, fills every page but the last, and makes an empty page
      only for no records at all. */
  lemma {:induction false} PagesPartition(records: seq<Item>, size: nat)
    requires size > 0
    ensures Flatten(Pages(records, size)) == records
    ensures forall i :: 0 <= i < |Pages(records, size)| - 1 ==> |Pages(records, size)[i]| == size
    ensures var last := Pages(records, size)[|Pages(records, size)| - 1]; |last| <= size && (last == [] ==> records == [])
  {
    if |records| > size {
      PagesPartition(records[size..], size);
      var rest := Pages(records[size..], size);
      assert Pages(records, size)[1..] == rest;
    } else {
      assert [records][1..] == [];
    }
  }

  // ------------------------------------------------------------- file names

  function Digit(d: nat): (c: char)
    requires d < 10
  {
    "0123456789"[d]
  }

  function Decimal(n: nat): (s: string)
    ensures s != []
  {
    if n < 10 then [Digit(n)] else Decimal(n / 10) + [Digit(n % 10)]
  }

  /** The number that a string of digits stands for. */
  function Value(s: string): (n: int) {
    if s == [] then 0 else 10 * Value(s[..|s| - 1]) + (s[|s| - 1] as int - '0' as int)
  }

  lemma DigitExactly(d: nat)
    requires d < 10
    ensures Digit(d) as int - '0' as int == d
  {
  }

  lemma ValueStep(s: string, c: char)
    ensures Value(s + [c]) == 10 * Value(s) + (c as int - '0' as int)
  {
    assert (s + [c])[..|s|] == s;
  }

  predicate AllDigits(s: string) {
    forall i :: 0 <= i < |s| ==> '0' <= s[i] <= '9'
  }

  lemma TenTimes(n: nat)
    ensures 10 * (n / 10) + n % 10 == n
  {
  }

  /** A file number is written in decimal digits without leading zeros. */
  lemma {:induction false} DecimalReadsBack(n: nat)
    ensures Value(Decimal(n)) == n && AllDigits(Decimal(n)) && (n > 0 ==> Decimal(n)[0] != '0')
  {
    if n < 10 {
      DigitExactly(n);
      ValueStep("", Digit(n));
      assert "" + [Digit(n)] == [Digit(n)];
    } else {
      DecimalReadsBack(n / 10);
      DigitExactly(n % 10);
      ValueStep(Decimal(n / 10), Digit(n % 10));
      TenTimes(n);
    }
  }

  lemma DigitsDiffer(a: nat, b: nat)
    requires a < 10 && b < 10 && Digit(a) == Digit(b)
    ensures a == b
  {
  }

  lemma {:induction false} DecimalInjective(a: nat, b: nat)
    requires Decimal(a) == Decimal(b)
    ensures a == b
  {
    var s, t := Decimal(a), Decimal(b);
    assert s[|s| - 1] == Digit(a % 10) && t[|t| - 1] == Digit(b % 10);
    DigitsDiffer(a % 10, b % 10);
    if a >= 10 && b >= 10 {
      assert s[..|s| - 1] == Decimal(a / 10) && t[..|t| - 1] == Decimal(b / 10);
      DecimalInjective(a / 10, b / 10);
    }
  }

  function Filename(recordType: string, index: nat): (s: string) {
    "activity_dump_file_" + recordType + Decimal(index) + ".json"
  }

  function PathOf(version: string, recordType: string, index: nat): (s: string) {
    "/" + version + "/" + recordType + "/" + Filename(recordType, index)
  }

  lemma SameHead<T>(head: seq<T>, a: seq<T>, b: seq<T>)
    requires head + a == head + b
    ensures a == b
  {
    assert a == (head + a)[|head|..];
  }

  lemma SameTail<T>(a: seq<T>, b: seq<T>, tail: seq<T>)
    requires a + tail == b + tail
    ensures a == b
  {
    assert a == (a + tail)[..|a + tail| - |tail|];
    assert b == (b + tail)[..|b + tail| - |tail|];
  }

  lemma TypesByTwoLetters(t: string, u: string)
    requires t in RECORD_TYPES && u in RECORD_TYPES && t[0] == u[0] && t[1] == u[1]
    ensures t == u
  {
  }

  lemma SameTypeThere(t: string, a: string, u: string, b: string)
    requires t in RECORD_TYPES && u in RECORD_TYPES && t + a == u + b
    ensures t == u
  {
    assert (t + a)[0] == t[0] && (t + a)[1] == t[1] && (u + b)[0] == u[0] && (u + b)[1] == u[1];
    TypesByTwoLetters(t, u);
  }

  lemma PathParts(version: string, t: string, i: nat)
    ensures PathOf(version, t, i) == ("/" + version + "/") + (t + ("/" + ("activity_dump_file_" + t + (Decimal(i) + ".json"))))
  {
    assert Filename(t, i) == "activity_dump_file_" + t + (Decimal(i) + ".json");
    Split4("/" + version + "/", t, "/", Filename(t, i));
  }

  lemma Split4(a: string, b: string, c: string, d: string)
    ensures a + b + c + d == a + (b + (c + d))
  {
  }

  /** Two pages never share a path. */
  lemma PathsDistinct(version: string, t: string, i: nat, u: string, j: nat)
    requires t in RECORD_TYPES && u in RECORD_TYPES && PathOf(version, t, i) == PathOf(version, u, j)
    ensures t == u && i == j
  {
    PathParts(version, t, i);
    PathParts(version, u, j);
    var x, y := Decimal(i) + ".json", Decimal(j) + ".json";
    SameHead("/" + version + "/", t + ("/" + ("activity_dump_file_" + t + x)), u + ("/" + ("activity_dump_file_" + u + y)));
    SameTypeThere(t, "/" + ("activity_dump_file_" + t + x), u, "/" + ("activity_dump_file_" + u + y));
    SameHead(t, "/" + ("activity_dump_file_" + t + x), "/" + ("activity_dump_file_" + t + y));
    SameHead("/", "activity_dump_file_" + t + x, "activity_dump_file_" + t + y);
    SameHead("activity_dump_file_" + t, x, y);
    SameTail(Decimal(i), Decimal(j), ".json");
    DecimalInjective(i, j);
  }

  // ------------------------------------------------------------ the payload

  function MakeDumpFile(codec: Codec, cfg: Settings, timestamp: string, recordType: string, index: nat, page: seq<Item>): (m: Made) {
    var content := codec.encodeEnvelope(Envelope(timestamp, timestamp, page));
    var path := PathOf(cfg.version, recordType, index);
    Made(Entry(Url(cfg.base.origin, cfg.base.path + path), codec.sha1(content), |content|, cfg.version, recordType),
         FileRow(recordType, path, codec.sha1(content), |content|, content))
  }

  /** The files of one type, in page order. */
  function TypeFiles(codec: Codec, cfg: Settings, timestamp: string, recordType: string, pages: seq<seq<Item>>): (r: seq<Made>)
    ensures |r| == |pages|
  {
    if pages == [] then []
    else
      var n := |pages| - 1;
      TypeFiles(codec, cfg, timestamp, recordType, pages[..n]) + [MakeDumpFile(codec, cfg, timestamp, recordType, n, pages[n])]
  }

  /** The records of each type, by type name. */
  type Tables = string -> seq<Item>

  function AllFiles(codec: Codec, cfg: Settings, timestamp: string, tables: Tables, types: seq<string>): (r: seq<Made>)
    requires cfg.pageSize > 0
  {
    if types == [] then []
    else
      var n := |types| - 1;
      AllFiles(codec, cfg, timestamp, tables, types[..n])
      + TypeFiles(codec, cfg, timestamp, types[n], Pages(tables(types[n]), cfg.pageSize))
  }

  function Entries(made: seq<Made>): (r: seq<Entry>)
    ensures |r| == |made| && forall i :: 0 <= i < |made| ==> r[i] == made[i].entry
  {
    if made == [] then [] else Entries(made[..|made| - 1]) + [made[|made| - 1].entry]
  }

  function Rows(made: seq<Made>): (r: seq<FileRow>)
    ensures |r| == |made| && forall i :: 0 <= i < |made| ==> r[i] == made[i].row
  {
    if made == [] then [] else Rows(made[..|made| - 1]) + [made[|made| - 1].row]
  }

  predicate Stamped(codec: Codec, content: string, timestamp: string) {
    match codec.decodeEnvelope(content)
    case Some(e) => e.startTime == timestamp && e.endTime == timestamp
    case None => false
  }

  predicate EntryMatches(codec: Codec, e: Entry, content: string) {
    e.checksum == codec.sha1(content) && e.size == |content|
  }

  function PayloadOf(codec: Codec, timestamp: string, made: seq<Made>): (p: Payload) {
    Payload(timestamp, codec.encodeManifest(Manifest(Entries(made), timestamp, DESCRIPTION)), made)
  }

  function Snapshot(codec: Codec, cfg: Settings, timestamp: string, tables: Tables): (r: Result<Payload, Failure>)
    requires cfg.pageSize > 0
  {
    var made := AllFiles(codec, cfg, timestamp, tables, RECORD_TYPES);
    if |made| > MANIFEST_MAX_FILES then Err(TooManyFiles)
    else if exists m :: m in made && !Stamped(codec, m.row.content, timestamp) then Err(TimestampMismatch)
    else Ok(PayloadOf(codec, timestamp, made))
  }

  method MakeTypeFiles(codec: Codec, cfg: Settings, timestamp: string, recordType: string, records: seq<Item>, made0: seq<Made>)
    returns (made: seq<Made>)
    requires cfg.pageSize > 0
    ensures made == made0 + TypeFiles(codec, cfg, timestamp, recordType, Pages(records, cfg.pageSize))
  {
    var pages := ChunkRecords(records, cfg.pageSize);
    made := made0;
    for i := 0 to |pages|
      invariant made == made0 + TypeFiles(codec, cfg, timestamp, recordType, pages[..i])
    {
      assert pages[..i + 1][..i] == pages[..i];
      var file := MakeDumpFile(codec, cfg, timestamp, recordType, i, pages[i]);
      made := made + [file];
    }
    assert pages[..|pages|] == pages;
  }

  method MakeAllFiles(codec: Codec, cfg: Settings, timestamp: string, tables: Tables) returns (made: seq<Made>)
    requires cfg.pageSize > 0
    ensures made == AllFiles(codec, cfg, timestamp, tables, RECORD_TYPES)
  {
    made := [];
    for t := 0 to |RECORD_TYPES|
      invariant made == AllFiles(codec, cfg, timestamp, tables, RECORD_TYPES[..t])
    {
      assert RECORD_TYPES[..t + 1][..t] == RECORD_TYPES[..t];
      made := MakeTypeFiles(codec, cfg, timestamp, RECORD_TYPES[t], tables(RECORD_TYPES[t]), made);
    }
    assert RECORD_TYPES[..|RECORD_TYPES|] == RECORD_TYPES;
  }

  method AllStamped(codec: Codec, timestamp: string, made: seq<Made>) returns (ok: bool)
    ensures ok <==> !exists m :: m in made && !Stamped(codec, m.row.content, timestamp)
  {
    for i := 0 to |made|
      invariant forall j :: 0 <= j < i ==> Stamped(codec, made[j].row.content, timestamp)
    {
      if !Stamped(codec, made[i].row.content, timestamp) {
        assert made[i] in made;
        return false;
      }
    }
    return true;
  }

  /** A file of the dump, field by field: its path, its content with the time stamps, its checksum and
      size, and its entry in the manifest. */
  predicate FileInFields(codec: Codec, cfg: Settings, timestamp: string, m: Made, t: string, i: nat, page: seq<Item>) {
    && m.row.recordType == t
    && m.row.path == "/" + cfg.version + "/" + t + "/" + ("activity_dump_file_" + t + Decimal(i) + ".json")
    && m.row.content == codec.encodeEnvelope(Envelope(timestamp, timestamp, page))
    && m.row.checksum == codec.sha1(m.row.content) && m.row.size == |m.row.content|
    && m.entry.recordType == t && m.entry.version == cfg.version
    && m.entry.checksum == codec.sha1(m.row.content) && m.entry.size == |m.row.content|
    && m.entry.url.origin == cfg.base.origin && m.entry.url.path == cfg.base.path + m.row.path
  }

  /** The files of one type from position `at` on: one for each `size` records, at least one. */
  ghost predicate TypeInFields(codec: Codec, cfg: Settings, timestamp: string, t: string, items: seq<Item>, made: seq<Made>) {
    exists pages: seq<seq<Item>> :: |pages| == |made| > 0 && Flatten(pages) == items
      && (forall i :: 0 <= i < |pages| ==> FileInFields(codec, cfg, timestamp, made[i], t, i, pages[i]))
      && (forall i :: 0 <= i < |pages| - 1 ==> |pages[i]| == cfg.pageSize)
      && |pages[|pages| - 1]| <= cfg.pageSize && (pages[|pages| - 1] == [] ==> items == [])
  }

  /** The dump has the files of the four types, one type after the other. */
  ghost predicate DumpInFields(codec: Codec, cfg: Settings, timestamp: string, tables: Tables, made: seq<Made>) {
    exists cbsds, zones, sensors, coordination :: made == cbsds + zones + sensors + coordination
      && TypeInFields(codec, cfg, timestamp, "cbsd", tables("cbsd"), cbsds)
      && TypeInFields(codec, cfg, timestamp, "zone", tables("zone"), zones)
      && TypeInFields(codec, cfg, timestamp, "esc_sensor", tables("esc_sensor"), sensors)
      && TypeInFields(codec, cfg, timestamp, "coordination", tables("coordination"), coordination)
  }

  lemma TypeFilesInFields(codec: Codec, cfg: Settings, timestamp: string, t: string, items: seq<Item>)
    requires cfg.pageSize > 0
    ensures TypeInFields(codec, cfg, timestamp, t, items, TypeFiles(codec, cfg, timestamp, t, Pages(items, cfg.pageSize)))
  {
    var pages := Pages(items, cfg.pageSize);
    PagesPartition(items, cfg.pageSize);
    forall i | 0 <= i < |pages| ensures FileInFields(codec, cfg, timestamp, TypeFiles(codec, cfg, timestamp, t, pages)[i], t, i, pages[i]) {
      TypeFileAt(codec, cfg, timestamp, t, pages, i);
    }
  }

  function FilesOf(codec: Codec, cfg: Settings, timestamp: string, tables: Tables, t: string): (made: seq<Made>)
    requires cfg.pageSize > 0
  {
    TypeFiles(codec, cfg, timestamp, t, Pages(tables(t), cfg.pageSize))
  }

  lemma OneTypeMore(codec: Codec, cfg: Settings, timestamp: string, tables: Tables, n: nat, t: string)
    requires cfg.pageSize > 0 && n < |RECORD_TYPES| && t == RECORD_TYPES[n]
    ensures AllFiles(codec, cfg, timestamp, tables, RECORD_TYPES[..n + 1]) ==
            AllFiles(codec, cfg, timestamp, tables, RECORD_TYPES[..n]) + FilesOf(codec, cfg, timestamp, tables, t)
  {
    AllFilesStep(codec, cfg, timestamp, tables, n + 1);
  }

  lemma AllFilesParts(codec: Codec, cfg: Settings, timestamp: string, tables: Tables)
    requires cfg.pageSize > 0
    ensures AllFiles(codec, cfg, timestamp, tables, RECORD_TYPES) ==
            FilesOf(codec, cfg, timestamp, tables, "cbsd") + FilesOf(codec, cfg, timestamp, tables, "zone")
            + FilesOf(codec, cfg, timestamp, tables, "esc_sensor") + FilesOf(codec, cfg, timestamp, tables, "coordination")
  {
    OneTypeMore(codec, cfg, timestamp, tables, 0, "cbsd");
    OneTypeMore(codec, cfg, timestamp, tables, 1, "zone");
    OneTypeMore(codec, cfg, timestamp, tables, 2, "esc_sensor");
    OneTypeMore(codec, cfg, timestamp, tables, 3, "coordination");
    assert RECORD_TYPES[..4] == RECORD_TYPES && RECORD_TYPES[..0] == [];
    assert [] + FilesOf(codec, cfg, timestamp, tables, "cbsd") == FilesOf(codec, cfg, timestamp, tables, "cbsd");
  }

  lemma FourPartsInFields(codec: Codec, cfg: Settings, timestamp: string, tables: Tables, a: seq<Made>, b: seq<Made>, c: seq<Made>, d: seq<Made>)
    requires TypeInFields(codec, cfg, timestamp, "cbsd", tables("cbsd"), a)
    requires TypeInFields(codec, cfg, timestamp, "zone", tables("zone"), b)
    requires TypeInFields(codec, cfg, timestamp, "esc_sensor", tables("esc_sensor"), c)
    requires TypeInFields(codec, cfg, timestamp, "coordination", tables("coordination"), d)
    ensures DumpInFields(codec, cfg, timestamp, tables, a + b + c + d)
  {
  }

  lemma AllFilesInFields(codec: Codec, cfg: Settings, timestamp: string, tables: Tables)
    requires cfg.pageSize > 0
    ensures DumpInFields(codec, cfg, timestamp, tables, AllFiles(codec, cfg, timestamp, tables, RECORD_TYPES))
  {
    TypeFilesInFields(codec, cfg, timestamp, "cbsd", tables("cbsd"));
    TypeFilesInFields(codec, cfg, timestamp, "zone", tables("zone"));
    TypeFilesInFields(codec, cfg, timestamp, "esc_sensor", tables("esc_sensor"));
    TypeFilesInFields(codec, cfg, timestamp, "coordination", tables("coordination"));
    AllFilesParts(codec, cfg, timestamp, tables);
    FourPartsInFields(codec, cfg, timestamp, tables, FilesOf(codec, cfg, timestamp, tables, "cbsd"),
                      FilesOf(codec, cfg, timestamp, tables, "zone"), FilesOf(codec, cfg, timestamp, tables, "esc_sensor"),
                      FilesOf(codec, cfg, timestamp, tables, "coordination"));
  }

  /** The payload: the files, and a manifest with their entries in order. */
  ghost predicate PayloadInFields(codec: Codec, cfg: Settings, timestamp: string, tables: Tables, p: Payload) {
    && p.timestamp == timestamp && |p.made| <= 101 && ManifestInFields(codec, p)
    && DumpInFields(codec, cfg, timestamp, tables, p.made)
  }

  ghost predicate ManifestInFields(codec: Codec, p: Payload) {
    exists files :: |files| == |p.made| && (forall i :: 0 <= i < |files| ==> files[i] == p.made[i].entry)
                    && p.manifestJson == codec.encodeManifest(Manifest(files, p.timestamp, "Full activity dump files"))
  }

  lemma PayloadOfInFields(codec: Codec, timestamp: string, made: seq<Made>)
    ensures ManifestInFields(codec, PayloadOf(codec, timestamp, made))
  {
    var files := Entries(made);
    assert |files| == |made| && forall i :: 0 <= i < |files| ==> files[i] == made[i].entry;
  }

  method BuildSnapshotPayload(codec: Codec, cfg: Settings, timestamp: string, tables: Tables) returns (r: Result<Payload, Failure>)
    requires cfg.pageSize > 0
    ensures r == Snapshot(codec, cfg, timestamp, tables)
    ensures r.Ok? ==> PayloadInFields(codec, cfg, timestamp, tables, r.value)
  {
    var made := MakeAllFiles(codec, cfg, timestamp, tables);
    if |made| > MANIFEST_MAX_FILES {
      return Err(TooManyFiles);
    }
    var ok := AllStamped(codec, timestamp, made);
    if !ok {
      return Err(TimestampMismatch);
    }
    AllFilesInFields(codec, cfg, timestamp, tables);
    PayloadOfInFields(codec, timestamp, made);
    return Ok(PayloadOf(codec, timestamp, made));
  }

  // -------------------------------------------------------------- integrity

  function Rooted(path: string): (r: string) {
    if path != [] && path[0] == '/' then path else "/" + path
  }

  /** The first file row with this path. */
  function RowAt(rows: seq<FileRow>, path: string): (r: Option<FileRow>)
    ensures r.Some? ==> r.value in rows && r.value.path == path
    ensures r.None? ==> forall row :: row in rows ==> row.path != path
  {
    if rows == [] then None
    else if rows[0].path == path then Some(rows[0])
    else RowAt(rows[1..], path)
  }

  predicate EntrySound(codec: Codec, rows: seq<FileRow>, generation: string, e: Entry) {
    var row := RowAt(rows, Rooted(e.url.path));
    row.Some? && EntryMatches(codec, e, row.value.content) && Stamped(codec, row.value.content, generation)
  }

  predicate HasType(files: seq<Entry>, t: string) {
    exists e :: e in files && e.recordType == t
  }

  /** What the integrity check accepts. */
  predicate Sound(codec: Codec, dump: Dump) {
    var m := codec.decodeManifest(dump.manifestJson);
    && m.Some? && m.value.files != []
    && (forall e :: e in m.value.files ==> EntrySound(codec, dump.files, m.value.generation, e))
    && (forall t :: t in RECORD_TYPES ==> HasType(m.value.files, t))
  }

  /** The first row with the path of the entry has its checksum and size and the dump's time stamps. */
  ghost predicate BackedInFields(codec: Codec, rows: seq<FileRow>, generation: string, e: Entry) {
    exists k :: 0 <= k < |rows| && IsPathOf(rows[k].path, e.url.path) && (forall j :: 0 <= j < k ==> rows[j].path != rows[k].path)
      && e.checksum == codec.sha1(rows[k].content) && e.size == |rows[k].content|
      && codec.decodeEnvelope(rows[k].content).Some?
      && codec.decodeEnvelope(rows[k].content).value.startTime == generation
      && codec.decodeEnvelope(rows[k].content).value.endTime == generation
  }

  /** The URL's path, made to start with a slash. */
  predicate IsPathOf(path: string, urlPath: string) {
    if urlPath != "" && urlPath[0] == '/' then path == urlPath else path == "/" + urlPath
  }

  ghost predicate SoundInFields(codec: Codec, manifestJson: string, rows: seq<FileRow>) {
    && codec.decodeManifest(manifestJson).Some?
    && var m := codec.decodeManifest(manifestJson).value;
       && m.files != [] && (forall e :: e in m.files ==> BackedInFields(codec, rows, m.generation, e))
       && HasType(m.files, "cbsd") && HasType(m.files, "zone") && HasType(m.files, "esc_sensor") && HasType(m.files, "coordination")
  }

  lemma {:induction false} RowAtExactly(rows: seq<FileRow>, path: string)
    ensures RowAt(rows, path).Some? ==>
              exists k :: 0 <= k < |rows| && rows[k] == RowAt(rows, path).value && rows[k].path == path
                          && forall j :: 0 <= j < k ==> rows[j].path != path
    ensures forall k :: 0 <= k < |rows| && rows[k].path == path && (forall j :: 0 <= j < k ==> rows[j].path != path) ==>
                          RowAt(rows, path) == Some(rows[k])
  {
    if rows != [] && rows[0].path != path {
      RowAtExactly(rows[1..], path);
      if RowAt(rows, path).Some? {
        var k :| 0 <= k < |rows[1..]| && rows[1..][k] == RowAt(rows, path).value && rows[1..][k].path == path
                 && forall j :: 0 <= j < k ==> rows[1..][j].path != path;
        assert rows[k + 1] == RowAt(rows, path).value;
        forall j | 0 <= j < k + 1 ensures rows[j].path != path {
          if j > 0 {
            assert rows[1..][j - 1].path != path;
          }
        }
      }
      forall k | 0 <= k < |rows| && rows[k].path == path && (forall j :: 0 <= j < k ==> rows[j].path != path)
        ensures RowAt(rows, path) == Some(rows[k])
      {
        assert rows[1..][k - 1] == rows[k];
        forall j | 0 <= j < k - 1 ensures rows[1..][j].path != path {
          assert rows[1..][j] == rows[j + 1];
        }
      }
    }
  }

  lemma BackedExactly(codec: Codec, rows: seq<FileRow>, generation: string, e: Entry)
    ensures EntrySound(codec, rows, generation, e) <==> BackedInFields(codec, rows, generation, e)
  {
    RowAtExactly(rows, Rooted(e.url.path));
  }

  lemma FourTypes(files: seq<Entry>)
    ensures (forall t :: t in RECORD_TYPES ==> HasType(files, t))
            <==> HasType(files, "cbsd") && HasType(files, "zone") && HasType(files, "esc_sensor") && HasType(files, "coordination")
  {
    assert RECORD_TYPES[0] in RECORD_TYPES && RECORD_TYPES[1] in RECORD_TYPES && RECORD_TYPES[2] in RECORD_TYPES && RECORD_TYPES[3] in RECORD_TYPES;
  }

  lemma SoundExactly(codec: Codec, dump: Dump)
    ensures Sound(codec, dump) <==> SoundInFields(codec, dump.manifestJson, dump.files)
  {
    if codec.decodeManifest(dump.manifestJson).Some? {
      var m := codec.decodeManifest(dump.manifestJson).value;
      FourTypes(m.files);
      forall e ensures EntrySound(codec, dump.files, m.generation, e) <==> BackedInFields(codec, dump.files, m.generation, e) {
        BackedExactly(codec, dump.files, m.generation, e);
      }
    }
  }

  method VerifyReadyDumpIntegrity(codec: Codec, dump: Dump) returns (ok: bool)
    ensures ok == Sound(codec, dump)
    ensures ok <==> SoundInFields(codec, dump.manifestJson, dump.files)
  {
    SoundExactly(codec, dump);
    var m := codec.decodeManifest(dump.manifestJson);
    if m.None? || m.value.files == [] {
      return false;
    }
    ok := AllBacked(codec, dump.files, m.value.generation, m.value.files);
    if ok {
      ok := AllTypes(m.value.files);
    }
  }

  method AllBacked(codec: Codec, rows: seq<FileRow>, generation: string, files: seq<Entry>) returns (ok: bool)
    ensures ok <==> forall e :: e in files ==> EntrySound(codec, rows, generation, e)
  {
    for i := 0 to |files|
      invariant forall e :: e in files[..i] ==> EntrySound(codec, rows, generation, e)
    {
      var row := RowAt(rows, Rooted(files[i].url.path));
      if row.None? || !EntryMatches(codec, files[i], row.value.content) || !Stamped(codec, row.value.content, generation) {
        assert files[i] in files && !EntrySound(codec, rows, generation, files[i]);
        return false;
      }
    }
    assert files[..|files|] == files;
    return true;
  }

  method AllTypes(files: seq<Entry>) returns (ok: bool)
    ensures ok <==> forall t :: t in RECORD_TYPES ==> HasType(files, t)
  {
    for t := 0 to |RECORD_TYPES|
      invariant forall u :: u in RECORD_TYPES[..t] ==> HasType(files, u)
    {
      if !HasType(files, RECORD_TYPES[t]) {
        assert RECORD_TYPES[t] in RECORD_TYPES;
        return false;
      }
    }
    assert RECORD_TYPES[..|RECORD_TYPES|] == RECORD_TYPES;
    return true;
  }

  ghost predicate MadeOf(codec: Codec, cfg: Settings, timestamp: string, m: Made, types: seq<string>) {
    exists t: string, i: nat, page: seq<Item> :: t in types && m == MakeDumpFile(codec, cfg, timestamp, t, i, page)
  }

  /** Every file of the payload is the one made for its type and page, and has its own path. */
  ghost predicate MadeRight(codec: Codec, cfg: Settings, timestamp: string, made: seq<Made>, types: seq<string>) {
    && (forall m :: m in made ==> MadeOf(codec, cfg, timestamp, m, types))
    && (forall i, j :: 0 <= i < j < |made| ==> made[i].row.path != made[j].row.path)
  }

  lemma {:induction false} TypeFileAt(codec: Codec, cfg: Settings, timestamp: string, t: string, pages: seq<seq<Item>>, i: nat)
    requires i < |pages|
    ensures TypeFiles(codec, cfg, timestamp, t, pages)[i] == MakeDumpFile(codec, cfg, timestamp, t, i, pages[i])
  {
    var n := |pages| - 1;
    if i < n {
      TypeFileAt(codec, cfg, timestamp, t, pages[..n], i);
    }
  }

  ghost predicate Present(made: seq<Made>, t: string) {
    exists m :: m in made && m.entry.recordType == t
  }

  lemma AddPresent(before: seq<Made>, own: seq<Made>, n: nat)
    requires 0 < n <= |RECORD_TYPES| && own != [] && own[0].entry.recordType == RECORD_TYPES[n - 1]
    requires forall t :: t in RECORD_TYPES[..n - 1] ==> Present(before, t)
    ensures forall t :: t in RECORD_TYPES[..n] ==> Present(before + own, t)
  {
    forall t | t in RECORD_TYPES[..n] ensures Present(before + own, t) {
      if t == RECORD_TYPES[n - 1] {
        assert own[0] in before + own;
      } else {
        var i :| 0 <= i < n && RECORD_TYPES[..n][i] == t;
        assert RECORD_TYPES[..n - 1][i] == t;
        assert Present(before, t);
        var m :| m in before && m.entry.recordType == t;
        assert m in before + own;
      }
    }
  }

  lemma AllFilesStep(codec: Codec, cfg: Settings, timestamp: string, tables: Tables, n: nat)
    requires cfg.pageSize > 0 && 0 < n <= |RECORD_TYPES|
    ensures AllFiles(codec, cfg, timestamp, tables, RECORD_TYPES[..n]) ==
            AllFiles(codec, cfg, timestamp, tables, RECORD_TYPES[..n - 1])
            + TypeFiles(codec, cfg, timestamp, RECORD_TYPES[n - 1], Pages(tables(RECORD_TYPES[n - 1]), cfg.pageSize))
  {
    assert RECORD_TYPES[..n][..n - 1] == RECORD_TYPES[..n - 1];
  }

  lemma {:induction false} AllFilesRight(codec: Codec, cfg: Settings, timestamp: string, tables: Tables, n: nat)
    requires cfg.pageSize > 0 && n <= |RECORD_TYPES|
    ensures MadeRight(codec, cfg, timestamp, AllFiles(codec, cfg, timestamp, tables, RECORD_TYPES[..n]), RECORD_TYPES[..n])
    ensures forall t :: t in RECORD_TYPES[..n] ==> Present(AllFiles(codec, cfg, timestamp, tables, RECORD_TYPES[..n]), t)
  {
    if n > 0 {
      AllFilesRight(codec, cfg, timestamp, tables, n - 1);
      AllFilesStep(codec, cfg, timestamp, tables, n);
      var t := RECORD_TYPES[n - 1];
      var before := AllFiles(codec, cfg, timestamp, tables, RECORD_TYPES[..n - 1]);
      var pages := Pages(tables(t), cfg.pageSize);
      var own := TypeFiles(codec, cfg, timestamp, t, pages);
      TypeFileAt(codec, cfg, timestamp, t, pages, 0);
      AddType(codec, cfg, timestamp, before, n - 1, pages);
      AddPresent(before, own, n);
    }
  }

  lemma TypesDiffer(i: nat, j: nat)
    requires i < j < |RECORD_TYPES|
    ensures RECORD_TYPES[i] != RECORD_TYPES[j]
  {
  }

  lemma OwnPathsDiffer(codec: Codec, cfg: Settings, timestamp: string, t: string, pages: seq<seq<Item>>, i: nat, j: nat)
    requires t in RECORD_TYPES && i < j < |pages|
    ensures var own := TypeFiles(codec, cfg, timestamp, t, pages); own[i].row.path != own[j].row.path
  {
    TypeFileAt(codec, cfg, timestamp, t, pages, i);
    TypeFileAt(codec, cfg, timestamp, t, pages, j);
    if PathOf(cfg.version, t, i) == PathOf(cfg.version, t, j) {
      PathsDistinct(cfg.version, t, i, t, j);
    }
  }

  lemma EarlierPathsDiffer(codec: Codec, cfg: Settings, timestamp: string, m: Made, k: nat, pages: seq<seq<Item>>, j: nat)
    requires k < |RECORD_TYPES| && MadeOf(codec, cfg, timestamp, m, RECORD_TYPES[..k]) && j < |pages|
    ensures m.row.path != TypeFiles(codec, cfg, timestamp, RECORD_TYPES[k], pages)[j].row.path
  {
    var t := RECORD_TYPES[k];
    TypeFileAt(codec, cfg, timestamp, t, pages, j);
    var u: string, p: nat, page: seq<Item> :| u in RECORD_TYPES[..k] && m == MakeDumpFile(codec, cfg, timestamp, u, p, page);
    var q :| 0 <= q < k && RECORD_TYPES[..k][q] == u;
    TypesDiffer(q, k);
    if PathOf(cfg.version, u, p) == PathOf(cfg.version, t, j) {
      PathsDistinct(cfg.version, u, p, t, j);
    }
  }

  lemma MadeOfMore(codec: Codec, cfg: Settings, timestamp: string, m: Made, k: nat)
    requires k < |RECORD_TYPES| && MadeOf(codec, cfg, timestamp, m, RECORD_TYPES[..k])
    ensures MadeOf(codec, cfg, timestamp, m, RECORD_TYPES[..k + 1])
  {
    var t: string, i: nat, page: seq<Item> :| t in RECORD_TYPES[..k] && m == MakeDumpFile(codec, cfg, timestamp, t, i, page);
    assert RECORD_TYPES[..k + 1] == RECORD_TYPES[..k] + [RECORD_TYPES[k]];
  }

  lemma OwnMadeOf(codec: Codec, cfg: Settings, timestamp: string, k: nat, pages: seq<seq<Item>>, i: nat)
    requires k < |RECORD_TYPES| && i < |pages|
    ensures MadeOf(codec, cfg, timestamp, TypeFiles(codec, cfg, timestamp, RECORD_TYPES[k], pages)[i], RECORD_TYPES[..k + 1])
  {
    TypeFileAt(codec, cfg, timestamp, RECORD_TYPES[k], pages, i);
    assert RECORD_TYPES[..k + 1][k] == RECORD_TYPES[k];
  }

  lemma AddType(codec: Codec, cfg: Settings, timestamp: string, before: seq<Made>, k: nat, pages: seq<seq<Item>>)
    requires k < |RECORD_TYPES| && MadeRight(codec, cfg, timestamp, before, RECORD_TYPES[..k])
    ensures MadeRight(codec, cfg, timestamp, before + TypeFiles(codec, cfg, timestamp, RECORD_TYPES[k], pages), RECORD_TYPES[..k + 1])
  {
    var t := RECORD_TYPES[k];
    var own := TypeFiles(codec, cfg, timestamp, t, pages);
    var made := before + own;
    forall m | m in made ensures MadeOf(codec, cfg, timestamp, m, RECORD_TYPES[..k + 1]) {
      if m in before {
        MadeOfMore(codec, cfg, timestamp, m, k);
      } else {
        var i :| 0 <= i < |own| && own[i] == m;
        OwnMadeOf(codec, cfg, timestamp, k, pages, i);
      }
    }
    forall i, j | 0 <= i < j < |made| ensures made[i].row.path != made[j].row.path {
      if i >= |before| {
        OwnPathsDiffer(codec, cfg, timestamp, t, pages, i - |before|, j - |before|);
      } else if j >= |before| {
        assert made[i] in before;
        EarlierPathsDiffer(codec, cfg, timestamp, made[i], k, pages, j - |before|);
      }
    }
  }

  lemma {:induction false} RowAtOwn(rows: seq<FileRow>, k: nat)
    requires k < |rows| && forall i, j :: 0 <= i < j < |rows| ==> rows[i].path != rows[j].path
    ensures RowAt(rows, rows[k].path) == Some(rows[k])
  {
    if k > 0 {
      assert rows[0].path != rows[k].path;
      RowAtOwn(rows[1..], k - 1);
    }
  }

  function Longest(rows: seq<FileRow>): (k: nat)
    requires rows != []
    ensures k < |rows| && forall i :: 0 <= i < |rows| ==> |rows[i].path| <= |rows[k].path|
  {
    if |rows| == 1 then 0
    else
      var k := Longest(rows[1..]);
      if |rows[0].path| >= |rows[1..][k].path| then 0 else k + 1
  }

  /** The dump that publication makes of a payload. */
  function DumpOf(p: Payload, published: bool): (d: Dump) {
    Dump(p.timestamp, p.manifestJson, Rows(p.made), true, published)
  }

  lemma MadeFields(codec: Codec, cfg: Settings, timestamp: string, made: seq<Made>, k: nat)
    requires k < |made| && MadeRight(codec, cfg, timestamp, made, RECORD_TYPES)
    ensures made[k].entry.url.path == cfg.base.path + made[k].row.path
    ensures made[k].row.path != [] && made[k].row.path[0] == '/'
    ensures EntryMatches(codec, made[k].entry, made[k].row.content)
  {
    assert made[k] in made;
  }

  lemma PathlessAccepted(codec: Codec, cfg: Settings, timestamp: string, made: seq<Made>, e: Entry)
    requires MadeRight(codec, cfg, timestamp, made, RECORD_TYPES) && cfg.base.path == "" && e in Entries(made)
    requires forall m :: m in made ==> Stamped(codec, m.row.content, timestamp)
    ensures EntrySound(codec, Rows(made), timestamp, e)
  {
    var k :| 0 <= k < |made| && Entries(made)[k] == e;
    MadeFields(codec, cfg, timestamp, made, k);
    assert made[k] in made;
    assert Rows(made)[k] == made[k].row;
    assert e.url.path == made[k].row.path;
    RowAtOwn(Rows(made), k);
  }

  lemma PrefixRefused(codec: Codec, cfg: Settings, timestamp: string, made: seq<Made>) returns (e: Entry)
    requires MadeRight(codec, cfg, timestamp, made, RECORD_TYPES) && cfg.base.path != "" && made != []
    ensures e in Entries(made) && !EntrySound(codec, Rows(made), timestamp, e)
  {
    var rows := Rows(made);
    var k := Longest(rows);
    e := Entries(made)[k];
    MadeFields(codec, cfg, timestamp, made, k);
    assert |Rooted(e.url.path)| > |rows[k].path|;
    forall row | row in rows ensures row.path != Rooted(e.url.path) {
      var i :| 0 <= i < |rows| && rows[i] == row;
    }
  }

  /** What building leaves: the right files, all types, a manifest that reads back. */
  lemma SnapshotFacts(codec: Codec, cfg: Settings, timestamp: string, tables: Tables)
    requires cfg.pageSize > 0 && Faithful(codec) && Snapshot(codec, cfg, timestamp, tables).Ok?
    ensures var p := Snapshot(codec, cfg, timestamp, tables).value;
            && MadeRight(codec, cfg, timestamp, p.made, RECORD_TYPES) && p.made != []
            && (forall m :: m in p.made ==> Stamped(codec, m.row.content, timestamp))
            && (forall t :: t in RECORD_TYPES ==> HasType(Entries(p.made), t))
            && codec.decodeManifest(p.manifestJson) == Some(Manifest(Entries(p.made), timestamp, DESCRIPTION))
  {
    assert RECORD_TYPES[..|RECORD_TYPES|] == RECORD_TYPES;
    AllFilesRight(codec, cfg, timestamp, tables, |RECORD_TYPES|);
    AllTypesPresent(Snapshot(codec, cfg, timestamp, tables).value.made);
  }

  /** The integrity check accepts a payload built here exactly when the public base URL has no path. */
  lemma IntegrityExactly(codec: Codec, cfg: Settings, timestamp: string, tables: Tables, published: bool)
    requires cfg.pageSize > 0 && Faithful(codec) && Snapshot(codec, cfg, timestamp, tables).Ok?
    ensures Sound(codec, DumpOf(Snapshot(codec, cfg, timestamp, tables).value, published)) <==> cfg.base.path == ""
  {
    var made := Snapshot(codec, cfg, timestamp, tables).value.made;
    SnapshotFacts(codec, cfg, timestamp, tables);
    if cfg.base.path == "" {
      forall e | e in Entries(made) ensures EntrySound(codec, Rows(made), timestamp, e) {
        PathlessAccepted(codec, cfg, timestamp, made, e);
      }
    } else {
      var e := PrefixRefused(codec, cfg, timestamp, made);
    }
  }

  lemma MadeIsStamped(codec: Codec, cfg: Settings, timestamp: string, m: Made, types: seq<string>)
    requires Faithful(codec) && MadeOf(codec, cfg, timestamp, m, types)
    ensures Stamped(codec, m.row.content, timestamp)
  {
  }

  /** Building a payload fails exactly on too many files. */
  lemma SnapshotSucceedsExactly(codec: Codec, cfg: Settings, timestamp: string, tables: Tables)
    requires cfg.pageSize > 0 && Faithful(codec)
    ensures Snapshot(codec, cfg, timestamp, tables).Ok?
            <==> |AllFiles(codec, cfg, timestamp, tables, RECORD_TYPES)| <= MANIFEST_MAX_FILES
  {
    var made := AllFiles(codec, cfg, timestamp, tables, RECORD_TYPES);
    assert RECORD_TYPES[..|RECORD_TYPES|] == RECORD_TYPES;
    AllFilesRight(codec, cfg, timestamp, tables, |RECORD_TYPES|);
    forall m | m in made ensures Stamped(codec, m.row.content, timestamp) {
      MadeIsStamped(codec, cfg, timestamp, m, RECORD_TYPES);
    }
  }

  const PREFIXED: Settings := Settings(Url("https://sas.example", "/fad"), "v1.3", 500)

  lemma {:induction false} EmptyTablesMakeOneFileEach(codec: Codec, cfg: Settings, timestamp: string, tables: Tables, types: seq<string>)
    requires cfg.pageSize > 0 && forall t :: tables(t) == []
    ensures |AllFiles(codec, cfg, timestamp, tables, types)| == |types|
  {
    if types != [] {
      EmptyTablesMakeOneFileEach(codec, cfg, timestamp, tables, types[..|types| - 1]);
    }
  }

  /** A system reached under a path of its public host can build its dump, even an empty one, and never
      publish it. */
  lemma PrefixedNeverPublishes(codec: Codec, dumps: seq<Dump>)
    requires Faithful(codec)
    ensures Snapshot(codec, PREFIXED, "2026-01-01T00:00:00Z", t => []).Ok?
    ensures AfterPublish(codec, dumps, Snapshot(codec, PREFIXED, "2026-01-01T00:00:00Z", t => []).value) == dumps
  {
    var tables: Tables := t => [];
    EmptyTablesMakeOneFileEach(codec, PREFIXED, "2026-01-01T00:00:00Z", tables, RECORD_TYPES);
    SnapshotSucceedsExactly(codec, PREFIXED, "2026-01-01T00:00:00Z", tables);
    IntegrityExactly(codec, PREFIXED, "2026-01-01T00:00:00Z", tables, false);
  }

  lemma AllTypesPresent(made: seq<Made>)
    requires forall t :: t in RECORD_TYPES ==> Present(made, t)
    ensures made != [] && forall t :: t in RECORD_TYPES ==> HasType(Entries(made), t)
  {
    assert RECORD_TYPES[0] in RECORD_TYPES;
    forall t | t in RECORD_TYPES ensures HasType(Entries(made), t) {
      var m :| m in made && m.entry.recordType == t;
      var i :| 0 <= i < |made| && made[i] == m;
      assert Entries(made)[i].recordType == t;
    }
  }

  // ------------------------------------------------------------- publication

  function Unpublished(dumps: seq<Dump>): (r: seq<Dump>)
    ensures |r| == |dumps| && forall i :: 0 <= i < |dumps| ==> r[i] == dumps[i].(published := false)
  {
    if dumps == [] then [] else Unpublished(dumps[..|dumps| - 1]) + [dumps[|dumps| - 1].(published := false)]
  }

  /** The dump table after trying to publish a payload. */
  function AfterPublish(codec: Codec, dumps: seq<Dump>, p: Payload): (r: seq<Dump>) {
    if Sound(codec, DumpOf(p, false)) then Unpublished(dumps) + [DumpOf(p, true)] else dumps
  }

  ghost predicate OnePublished(dumps: seq<Dump>) {
    forall i, j :: 0 <= i < j < |dumps| ==> !(dumps[i].published && dumps[j].published)
  }

  ghost predicate PublishedAreSound(codec: Codec, dumps: seq<Dump>) {
    forall i :: 0 <= i < |dumps| && dumps[i].published ==> dumps[i].ready && Sound(codec, dumps[i])
  }

  /** The current dump: the newest published one. */
  function Current(dumps: seq<Dump>): (d: Option<Dump>) {
    if dumps == [] then None
    else if dumps[|dumps| - 1].published then Some(dumps[|dumps| - 1])
    else Current(dumps[..|dumps| - 1])
  }

  ghost predicate RowsOfFiles(rows: seq<FileRow>, made: seq<Made>) {
    |rows| == |made| && forall i :: 0 <= i < |rows| ==> rows[i] == made[i].row
  }

  /** Publication succeeds exactly when the files of the payload back its manifest; then the dumps there
      were are kept unpublished and the new one follows, else nothing changes. */
  ghost predicate PublishedInFields(codec: Codec, before: seq<Dump>, after: seq<Dump>, p: Payload, r: Result<Dump, Failure>) {
    exists rows :: RowsOfFiles(rows, p.made)
      && if SoundInFields(codec, p.manifestJson, rows) then
           && |after| == |before| + 1 && (forall i :: 0 <= i < |before| ==> after[i] == before[i].(published := false))
           && after[|before|] == Dump(p.timestamp, p.manifestJson, rows, true, true) && r == Ok(after[|before|])
         else after == before && r == Err(IntegrityFailed)
  }

  lemma PublishedExactly(codec: Codec, before: seq<Dump>, p: Payload)
    ensures PublishedInFields(codec, before, AfterPublish(codec, before, p), p,
                              if Sound(codec, DumpOf(p, false)) then Ok(DumpOf(p, true)) else Err(IntegrityFailed))
  {
    SoundExactly(codec, DumpOf(p, false));
    assert RowsOfFiles(Rows(p.made), p.made);
  }

  class FadStore {
    const codec: Codec
    var dumps: seq<Dump>

    constructor (codec: Codec)
      ensures this.codec == codec && dumps == []
    {
      this.codec := codec;
      dumps := [];
    }

    method UnpublishAll(count: nat)
      requires count <= |dumps|
      modifies this`dumps
      ensures dumps == Unpublished(old(dumps)[..count]) + old(dumps)[count..]
    {
      for i := 0 to count
        invariant |dumps| == |old(dumps)|
        invariant forall j :: 0 <= j < i ==> dumps[j] == old(dumps)[j].(published := false)
        invariant forall j :: i <= j < |dumps| ==> dumps[j] == old(dumps)[j]
      {
        if dumps[i].published {
          dumps := dumps[i := dumps[i].(published := false)];
        }
      }
    }

    /** On failure the transaction is rolled back. */
    method PublishSnapshot(p: Payload) returns (r: Result<Dump, Failure>)
      modifies this`dumps
      ensures dumps == AfterPublish(codec, old(dumps), p)
      ensures r == if Sound(codec, DumpOf(p, false)) then Ok(DumpOf(p, true)) else Err(IntegrityFailed)
      ensures PublishedInFields(codec, old(dumps), dumps, p, r)
    {
      ghost var before := dumps;
      var dump := DumpOf(p, false);
      dumps := dumps + [dump];
      var ok := VerifyReadyDumpIntegrity(codec, dump);
      if !ok {
        dumps := dumps[..|dumps| - 1];
        assert dumps == before;
        PublishedExactly(codec, before, p);
        return Err(IntegrityFailed);
      }
      UnpublishAll(|dumps| - 1);
      assert dumps == Unpublished(before) + [dump] by {
        assert (before + [dump])[..|before|] == before && (before + [dump])[|before|..] == [dump];
      }
      dumps := dumps[|dumps| - 1 := dump.(published := true)];
      PublishedExactly(codec, before, p);
      return Ok(dump.(published := true));
    }
  }

  /** One publication: the invariant stays, a success makes the new dump the only current one, a
      failure changes nothing. */
  lemma PublishKeepsInvariant(codec: Codec, dumps: seq<Dump>, p: Payload)
    requires OnePublished(dumps) && PublishedAreSound(codec, dumps)
    ensures OnePublished(AfterPublish(codec, dumps, p)) && PublishedAreSound(codec, AfterPublish(codec, dumps, p))
    ensures Current(AfterPublish(codec, dumps, p)) == if Sound(codec, DumpOf(p, false)) then Some(DumpOf(p, true)) else Current(dumps)
    ensures Current(dumps).Some? ==> Current(AfterPublish(codec, dumps, p)).Some?
  {
  }

  function AfterAll(codec: Codec, payloads: seq<Payload>): (dumps: seq<Dump>) {
    if payloads == [] then [] else AfterPublish(codec, AfterAll(codec, payloads[..|payloads| - 1]), payloads[|payloads| - 1])
  }

  ghost predicate AnyPublished(dumps: seq<Dump>) {
    exists i :: 0 <= i < |dumps| && dumps[i].published
  }

  ghost predicate AnyAccepted(codec: Codec, payloads: seq<Payload>) {
    exists p :: p in payloads && Sound(codec, DumpOf(p, false))
  }

  lemma AnyAcceptedStep(codec: Codec, payloads: seq<Payload>, p: Payload)
    ensures AnyAccepted(codec, payloads + [p]) <==> AnyAccepted(codec, payloads) || Sound(codec, DumpOf(p, false))
  {
    assert forall x :: x in payloads + [p] <==> x in payloads || x == p;
  }

  lemma AnyPublishedAfter(codec: Codec, dumps: seq<Dump>, p: Payload)
    ensures AnyPublished(AfterPublish(codec, dumps, p)) <==> AnyPublished(dumps) || Sound(codec, DumpOf(p, false))
  {
    var after := AfterPublish(codec, dumps, p);
    if Sound(codec, DumpOf(p, false)) {
      assert after[|after| - 1].published;
    }
  }

  /** After any sequence of publications, successful or not: at most one dump is published, there is
      one as soon as one attempt has succeeded, and it is ready and passes the integrity check. */
  lemma {:induction false} PublicationInvariant(codec: Codec, payloads: seq<Payload>)
    ensures OnePublished(AfterAll(codec, payloads)) && PublishedAreSound(codec, AfterAll(codec, payloads))
    ensures AnyPublished(AfterAll(codec, payloads)) <==> AnyAccepted(codec, payloads)
  {
    if payloads != [] {
      var n := |payloads| - 1;
      PublicationInvariant(codec, payloads[..n]);
      PublishKeepsInvariant(codec, AfterAll(codec, payloads[..n]), payloads[n]);
      AnyPublishedAfter(codec, AfterAll(codec, payloads[..n]), payloads[n]);
      AnyAcceptedStep(codec, payloads[..n], payloads[n]);
      assert payloads == payloads[..n] + [payloads[n]];
    }
  }
}
