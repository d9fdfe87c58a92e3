/** The admin data store (services/data_injection_service.py and routes/admin_routes.py): upsert by
    natural key, and a generation counter that every write raises in the same transaction. */
module Injection {
  import opened Wrappers

  /** Natural key of a payload of some kind; None when it has none or is not readable. */
  type KeyFn = (string, string) -> Option<string>

  datatype InjRow = InjRow(kind: string, data: string)

  const SCHEMA_KEY: string := "schemaVersion"
  const ESC_SENSOR: string := "esc_sensor"
  const ZONE: string := "zone"

  type Counters = map<string, int>

  predicate Matches(keyOf: KeyFn, row: InjRow, kind: string, key: string) {
    row.kind == kind && keyOf(kind, row.data) == Some(key)
  }

  /** Index of the first row with the key, or the length. */
  function FirstMatch(keyOf: KeyFn, rows: seq<InjRow>, kind: string, key: string): (i: nat)
    ensures i <= |rows|
    ensures forall j :: 0 <= j < i ==> !Matches(keyOf, rows[j], kind, key)
    ensures i < |rows| ==> Matches(keyOf, rows[i], kind, key)
  {
    if rows == [] then 0
    else if Matches(keyOf, rows[0], kind, key) then 0
    else 1 + FirstMatch(keyOf, rows[1..], kind, key)
  }

  function Upserted(keyOf: KeyFn, rows: seq<InjRow>, kind: string, raw: string): (r: seq<InjRow>) {
    match keyOf(kind, raw)
    case None => rows + [InjRow(kind, raw)]
    case Some(key) =>
      var i := FirstMatch(keyOf, rows, kind, key);
      if i < |rows| then rows[i := InjRow(kind, raw)] else rows + [InjRow(kind, raw)]
  }

  function CounterOf(counters: Counters, kind: string): (n: int) {
    if kind in counters then counters[kind] else 0
  }

  function Bumped(counters: Counters, kind: string): (c: Counters) {
    counters[kind := CounterOf(counters, kind) + 1][SCHEMA_KEY := 1]
  }

  /** What other parts of the system read of the store. */
  datatype Store = Store(rows: seq<InjRow>, sensors: map<string, string>, counters: Counters)

  /** One single-record injection transaction. */
  function Injected(keyOf: KeyFn, s: Store, kind: string, raw: string): (s': Store) {
    s.(rows := Upserted(keyOf, s.rows, kind, raw), counters := Bumped(s.counters, kind))
  }

  function SensorInjected(s: Store, id: string, raw: string): (s': Store) {
    s.(sensors := s.sensors[id := raw], counters := Bumped(s.counters, ESC_SENSOR))
  }

  /** A created PPA: its zone row is appended, whatever rows there are. */
  function ZoneAppended(s: Store, raw: string): (s': Store) {
    s.(rows := s.rows + [InjRow(ZONE, raw)], counters := Bumped(s.counters, ZONE))
  }

  // ------------------------------------------------------ a write, field by field

  predicate SameKey(keyOf: KeyFn, row: InjRow, kind: string, raw: string) {
    keyOf(kind, raw).Some? && row.kind == kind && keyOf(kind, row.data) == keyOf(kind, raw)
  }

  /** The first row of the same key gives way to the record; without one the record goes to the end. */
  ghost predicate WrittenInFields(keyOf: KeyFn, before: seq<InjRow>, after: seq<InjRow>, kind: string, raw: string) {
    if exists i :: 0 <= i < |before| && SameKey(keyOf, before[i], kind, raw) then
      exists i :: 0 <= i < |before| && SameKey(keyOf, before[i], kind, raw) && (forall j :: 0 <= j < i ==> !SameKey(keyOf, before[j], kind, raw))
                  && after == before[i := InjRow(kind, raw)]
    else after == before + [InjRow(kind, raw)]
  }

  /** One counter is one higher, the schema mark is set, the others are as they were. */
  predicate CountedInFields(before: Counters, after: Counters, kind: string) {
    && kind in after && after.Keys == before.Keys + {kind, "schemaVersion"}
    && (kind != "schemaVersion" ==> after[kind] == if kind in before then before[kind] + 1 else 1)
    && after["schemaVersion"] == 1
    && forall other :: other in before && other != kind && other != "schemaVersion" ==> after[other] == before[other]
  }

  lemma UpsertedExactly(keyOf: KeyFn, rows: seq<InjRow>, kind: string, raw: string)
    ensures WrittenInFields(keyOf, rows, Upserted(keyOf, rows, kind, raw), kind, raw)
  {
    if keyOf(kind, raw).Some? {
      var key := keyOf(kind, raw).value;
      var i := FirstMatch(keyOf, rows, kind, key);
      assert forall j :: 0 <= j < |rows| ==> (SameKey(keyOf, rows[j], kind, raw) <==> Matches(keyOf, rows[j], kind, key));
      if i < |rows| {
        assert SameKey(keyOf, rows[i], kind, raw);
      }
    }
  }

  class InjectionStore {
    const keyOf: KeyFn
    var rows: seq<InjRow>
    var sensors: map<string, string>
    /** The meta rows; the last one is the current one. */
    var meta: seq<Counters>

    constructor (keyOf: KeyFn)
      ensures this.keyOf == keyOf && View() == Store([], map[], map[])
    {
      this.keyOf := keyOf;
      rows, sensors, meta := [], map[], [];
    }

    function View(): (s: Store)
      reads this
    {
      Store(rows, sensors, if meta == [] then map[] else meta[|meta| - 1])
    }

    method Upsert(kind: string, raw: string)
      modifies this`rows
      ensures rows == Upserted(keyOf, old(rows), kind, raw)
      ensures WrittenInFields(keyOf, old(rows), rows, kind, raw)
    {
      UpsertedExactly(keyOf, rows, kind, raw);
      var key := keyOf(kind, raw);
      if key.None? {
        rows := rows + [InjRow(kind, raw)];
        return;
      }
      for i := 0 to |rows|
        invariant rows == old(rows)
        invariant forall j :: 0 <= j < i ==> !Matches(keyOf, rows[j], kind, key.value)
      {
        if rows[i].kind == kind {
          if keyOf(kind, rows[i].data) == key {
            FirstIs(keyOf, rows, kind, key.value, i);
            rows := rows[i := InjRow(kind, raw)];
            return;
          }
        }
      }
      FirstIs(keyOf, rows, kind, key.value, |rows|);
      rows := rows + [InjRow(kind, raw)];
    }

    method BumpInjectionGeneration(kind: string) returns (n: int)
      modifies this`meta
      ensures View().counters == Bumped(old(View().counters), kind) && |meta| == 1
      ensures kind != SCHEMA_KEY ==> n == CounterOf(old(View().counters), kind) + 1
      ensures CountedInFields(old(View().counters), View().counters, kind)
    {
      var counters := View().counters;
      counters := counters[kind := CounterOf(counters, kind) + 1];
      counters := counters[SCHEMA_KEY := 1];
      meta := [];
      meta := meta + [counters];
      n := counters[kind];
    }

    /** `acceptable` is the outcome of the kind's validation. */
    method PersistRecord(kind: string, raw: string, acceptable: bool) returns (ok: bool)
      modifies this
      ensures ok == acceptable && sensors == old(sensors)
      ensures View() == if acceptable then Injected(keyOf, old(View()), kind, raw) else old(View())
      ensures !acceptable ==> rows == old(rows) && View().counters == old(View().counters)
      ensures acceptable ==>
                WrittenInFields(keyOf, old(rows), rows, kind, raw) && CountedInFields(old(View().counters), View().counters, kind)
    {
      if !acceptable {
        return false;
      }
      Upsert(kind, raw);
      var _ := BumpInjectionGeneration(kind);
      return true;
    }

    method PersistPpaZone(raw: string)
      modifies this
      ensures View() == ZoneAppended(old(View()), raw)
      ensures rows == old(rows) + [InjRow("zone", raw)] && sensors == old(sensors)
      ensures CountedInFields(old(View().counters), View().counters, "zone")
    {
      rows := rows + [InjRow(ZONE, raw)];
      var _ := BumpInjectionGeneration(ZONE);
    }

    method PersistEscSensor(id: string, raw: string)
      modifies this
      ensures View() == SensorInjected(old(View()), id, raw)
      ensures rows == old(rows) && sensors == old(sensors)[id := raw]
      ensures CountedInFields(old(View().counters), View().counters, "esc_sensor")
    {
      sensors := sensors[id := raw];
      var _ := BumpInjectionGeneration(ESC_SENSOR);
    }
  }

  lemma {:induction false} FirstIs(keyOf: KeyFn, rows: seq<InjRow>, kind: string, key: string, i: nat)
    requires i <= |rows| && forall j :: 0 <= j < i ==> !Matches(keyOf, rows[j], kind, key)
    requires i < |rows| ==> Matches(keyOf, rows[i], kind, key)
    ensures FirstMatch(keyOf, rows, kind, key) == i
  {
    if i > 0 {
      FirstIs(keyOf, rows[1..], kind, key, i - 1);
    }
  }

  // ---------------------------------------------------------------- properties

  function RowsOf(rows: seq<InjRow>, kind: string): (r: seq<string>) {
    if rows == [] then []
    else (if rows[0].kind == kind then [rows[0].data] else []) + RowsOf(rows[1..], kind)
  }

  lemma {:induction false} RowsOfAppended(rows: seq<InjRow>, row: InjRow, kind: string)
    ensures RowsOf(rows + [row], kind) == RowsOf(rows, kind) + if row.kind == kind then [row.data] else []
  {
    if rows == [] {
      assert [] + [row] == [row];
    } else {
      assert (rows + [row])[1..] == rows[1..] + [row];
      RowsOfAppended(rows[1..], row, kind);
    }
  }

  lemma {:induction false} RowsOfReplaced(rows: seq<InjRow>, i: nat, row: InjRow, kind: string)
    requires i < |rows| && rows[i].kind == row.kind != kind
    ensures RowsOf(rows[i := row], kind) == RowsOf(rows, kind)
  {
    if i > 0 {
      assert rows[i := row][1..] == rows[1..][i - 1 := row];
      RowsOfReplaced(rows[1..], i - 1, row, kind);
    } else {
      assert rows[0 := row][1..] == rows[1..];
    }
  }

  /** Writing one kind leaves the rows of every other kind as they were. */
  lemma UpsertedElsewhere(keyOf: KeyFn, rows: seq<InjRow>, kind: string, raw: string, other: string)
    requires other != kind
    ensures RowsOf(Upserted(keyOf, rows, kind, raw), other) == RowsOf(rows, other)
  {
    RowsOfAppended(rows, InjRow(kind, raw), other);
    if keyOf(kind, raw).Some? {
      var i := FirstMatch(keyOf, rows, kind, keyOf(kind, raw).value);
      if i < |rows| {
        RowsOfReplaced(rows, i, InjRow(kind, raw), other);
      }
    }
  }

  /** No key has two rows. */
  ghost predicate OnePerKey(keyOf: KeyFn, rows: seq<InjRow>) {
    forall i, j, key :: 0 <= i < j < |rows| && Matches(keyOf, rows[i], rows[i].kind, key) ==> !Matches(keyOf, rows[j], rows[i].kind, key)
  }

  /** Upserting is replacement, not blind append: the store keeps one row for each key, that row
      holds what was written last, and the rows of all other keys are untouched. */
  lemma UpsertReplaces(keyOf: KeyFn, rows: seq<InjRow>, kind: string, raw: string, key: string)
    requires OnePerKey(keyOf, rows) && keyOf(kind, raw) == Some(key)
    ensures OnePerKey(keyOf, Upserted(keyOf, rows, kind, raw))
    ensures forall row :: row in Upserted(keyOf, rows, kind, raw) <==>
                            row == InjRow(kind, raw) || (row in rows && !Matches(keyOf, row, kind, key))
  {
    var i := FirstMatch(keyOf, rows, kind, key);
    var after := Upserted(keyOf, rows, kind, raw);
    forall row | row in rows && !Matches(keyOf, row, kind, key) ensures row in after {
      var j :| 0 <= j < |rows| && rows[j] == row;
      assert after[j] == row;
    }
    assert after[i] == InjRow(kind, raw);
    forall j | 0 <= j < |rows| && j != i ensures !Matches(keyOf, rows[j], kind, key) {
      if i < j && i < |rows| {
        assert Matches(keyOf, rows[i], rows[i].kind, key);
      }
    }
  }

  /** Every write raises its own counter and no other, so two equal counters mean no write between. */
  lemma WriteRaisesCounter(keyOf: KeyFn, s: Store, kind: string, raw: string, other: string)
    requires kind != SCHEMA_KEY && other != SCHEMA_KEY
    ensures CounterOf(Injected(keyOf, s, kind, raw).counters, other) == CounterOf(s.counters, other) + if other == kind then 1 else 0
    ensures other != kind ==> RowsOf(Injected(keyOf, s, kind, raw).rows, other) == RowsOf(s.rows, other)
    ensures Injected(keyOf, s, kind, raw).sensors == s.sensors
  {
    if other != kind {
      UpsertedElsewhere(keyOf, s.rows, kind, raw, other);
    }
  }
}
