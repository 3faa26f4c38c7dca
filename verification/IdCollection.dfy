/** Collecting the values that need a mapping, drawing their new values, and what the two achieve together. */
module IdCollection {
  import opened Wrappers
  import opened IdRegistry
  import opened IdValues
  import opened IdMapTable
  import opened IdTables
  import opened IdMigration
  import opened JsonText
  import opened JsonReferences
  import opened D1Plan
  import opened D1Progress

  // Collecting.

  function HistoricalSources(references: seq<Reference>): (r: seq<MappingSource>)
    ensures forall ref | ref in references && ref.allowDangling :: MappingSource(ref.table, ref.column, None, false) in r
  {
    if references == [] then []
    else
      var rest := HistoricalSources(references[1..]);
      if references[0].allowDangling
      then [MappingSource(references[0].table, references[0].column, None, false)] + rest else rest
  }

  /** Further columns that may name users who no longer exist. */
  function FurtherSources(kind: Kind): seq<MappingSource> {
    if kind != RowId(USER) then []
    else [
      MappingSource(AUDIT_EVENTS, USER_ID, None, false),
      MappingSource(AUDIT_EVENTS, ACTOR_REF, Some((ACTOR_TYPE, "user")), false),
      MappingSource(API_KEY, REFERENCE_ID, None, false),
      MappingSource(DOWNLOAD_TASKS, CREATED_BY_USER_ID, None, false)]
  }

  /** The value column of one reference, for each type of the kind. */
  function TypedSources(kind: Kind, p: Polymorphic, names: seq<string>): seq<MappingSource> {
    if names == [] then []
    else
      var rest := TypedSources(kind, p, names[1..]);
      if names[0] in p.typeKinds && p.typeKinds[names[0]] == kind
      then [MappingSource(p.table, p.valueColumn, Some((p.typeColumn, names[0])), true)] + rest else rest
  }

  function PolymorphicSources(kind: Kind, references: seq<Polymorphic>): seq<MappingSource> {
    if references == [] then []
    else TypedSources(kind, references[0], TYPE_NAMES) + PolymorphicSources(kind, references[1..])
  }

  /** The sources of a kind: its own columns first, then the polymorphic ones. */
  function Sources(kind: Kind): seq<MappingSource> {
    PlainSources(kind) + PolymorphicSources(kind, POLYMORPHIC_REFERENCES)
  }

  ghost predicate IsTypedSource(kind: Kind, p: Polymorphic, name: string, source: MappingSource) {
    && name in p.typeKinds && p.typeKinds[name] == kind
    && source == MappingSource(p.table, p.valueColumn, Some((p.typeColumn, name)), true)
  }

  lemma {:induction false} TypedSourcesAre(kind: Kind, p: Polymorphic, names: seq<string>, source: MappingSource)
    ensures source in TypedSources(kind, p, names) <==> exists name | name in names :: IsTypedSource(kind, p, name, source)
  {
    hide IsTypedSource;
    if names == [] {
    } else {
      TypedSourcesAre(kind, p, names[1..], source);
      TypedSourcesUnfold(kind, p, names, source);
      forall name ensures name in names <==> name == names[0] || name in names[1..] {
        InHeadOrTail(names, name);
      }
    }
  }

  lemma InHeadOrTail<T>(s: seq<T>, x: T)
    requires s != []
    ensures x in s <==> x == s[0] || x in s[1..]
  {
    assert s == [s[0]] + s[1..];
  }

  lemma TypedSourcesUnfold(kind: Kind, p: Polymorphic, names: seq<string>, source: MappingSource)
    requires names != []
    ensures source in TypedSources(kind, p, names)
      <==> IsTypedSource(kind, p, names[0], source) || source in TypedSources(kind, p, names[1..])
  {
  }

  lemma {:induction false} PolymorphicSourcesAre(kind: Kind, references: seq<Polymorphic>, source: MappingSource)
    ensures source in PolymorphicSources(kind, references) <==>
      exists p, name | p in references && name in TYPE_NAMES :: IsTypedSource(kind, p, name, source)
  {
    hide IsTypedSource, TypedSources, TYPE_NAMES;
    if references == [] {
    } else {
      TypedSourcesAre(kind, references[0], TYPE_NAMES, source);
      PolymorphicSourcesAre(kind, references[1..], source);
      forall p ensures p in references <==> p == references[0] || p in references[1..] {
        InHeadOrTail(references, p);
      }
      PolymorphicSourcesUnfold(kind, references, source);
    }
  }

  lemma PolymorphicSourcesUnfold(kind: Kind, references: seq<Polymorphic>, source: MappingSource)
    requires references != []
    ensures source in PolymorphicSources(kind, references)
      <==> source in TypedSources(kind, references[0], TYPE_NAMES) || source in PolymorphicSources(kind, references[1..])
  {
    hide TypedSources, TYPE_NAMES;
  }

  lemma TypeNamesAreListed(p: Polymorphic, name: string)
    requires p in POLYMORPHIC_REFERENCES && name in p.typeKinds
    ensures name in TYPE_NAMES
  {
    EntityTypesAreListed(name);
    TrafficTypesAreListed(name);
  }

  lemma EntityTypesAreListed(name: string)
    ensures name in ENTITY_TYPE_KINDS || name in ACTOR_KINDS || name in SCOPE_KINDS ==> name in TYPE_NAMES
  {
  }

  lemma TrafficTypesAreListed(name: string)
    ensures name in NOTIFICATION_KINDS || name in LEDGER_KINDS || name in TRAFFIC_KINDS ==> name in TYPE_NAMES
  {
  }

  /** Listed before the polymorphic columns. */
  function PlainSources(kind: Kind): seq<MappingSource> {
    [MappingSource(PrimaryTable(kind), PrimaryColumn(kind), None, false)]
    + HistoricalSources(References(kind))
    + FurtherSources(kind)
  }

  ghost predicate IsPlainSource(kind: Kind, source: MappingSource) {
    || source == MappingSource(PrimaryTable(kind), PrimaryColumn(kind), None, false)
    || source in HistoricalSources(References(kind))
    || source in FurtherSources(kind)
  }

  ghost predicate IsPolymorphicSource(kind: Kind, source: MappingSource) {
    exists p, name | p in POLYMORPHIC_REFERENCES && name in p.typeKinds :: IsTypedSource(kind, p, name, source)
  }

  /** Every column that may hold a value of the kind, and the type its rows must name. */
  ghost predicate IsSource(kind: Kind, source: MappingSource) {
    IsPlainSource(kind, source) || IsPolymorphicSource(kind, source)
  }

  lemma PlainSourcesAre(kind: Kind, source: MappingSource)
    ensures source in PlainSources(kind) <==> IsPlainSource(kind, source)
  {
    hide HistoricalSources, FurtherSources, References, PrimaryTable, PrimaryColumn;
  }

  /** The list holds exactly the sources of the kind. */
  lemma SourcesAreListed(kind: Kind, source: MappingSource)
    ensures source in Sources(kind) <==> IsSource(kind, source)
  {
    hide PlainSources, PolymorphicSources, IsPlainSource, IsPolymorphicSource;
    PlainSourcesAre(kind, source);
    TypedSourcesAreListed(kind, source);
  }

  lemma TypedSourcesAreListed(kind: Kind, source: MappingSource)
    ensures source in PolymorphicSources(kind, POLYMORPHIC_REFERENCES) <==> IsPolymorphicSource(kind, source)
  {
    hide PolymorphicSources, IsTypedSource;
    var references := POLYMORPHIC_REFERENCES;
    PolymorphicSourcesAre(kind, references, source);
    if p, name :| p in references && name in p.typeKinds && IsTypedSource(kind, p, name, source) {
      TypeNamesAreListed(p, name);
      assert source in PolymorphicSources(kind, references);
    }
    if p, name :| p in references && name in TYPE_NAMES && IsTypedSource(kind, p, name, source) {
      TypedSourceHasItsName(kind, p, name, source);
    }
  }

  lemma TypedSourceHasItsName(kind: Kind, p: Polymorphic, name: string, source: MappingSource)
    requires IsTypedSource(kind, p, name, source)
    ensures name in p.typeKinds
  {
  }

  predicate IsPrimary(kind: Kind, source: MappingSource) {
    source.table == PrimaryTable(kind) && source.column == PrimaryColumn(kind)
  }

  /** The WHERE clause of the collecting query, on a value that is present. */
  predicate NeedsMapping(kind: Kind, source: MappingSource, value: string) {
    if RotatesAll(kind) && IsPrimary(kind, source) then value != ""
    else if EmptyIsSentinel(source.table, source.column) then HasForeignChar(value)
    else HasForeignChar(value) || value == ""
  }

  predicate Matches(source: MappingSource, row: Row, value: string) {
    && (source.filter.Some? ==> Field(row, source.filter.value.0) == Text(source.filter.value.1))
    && (source.skipEmpty ==> value != "")
  }

  predicate IsNewValue(rows: seq<MapRow>, kind: Kind, value: string) {
    exists row | row in rows :: row.kind == kind && row.newValue == value
  }

  ghost predicate CollectsFrom(schema: Schema, kind: Kind, source: MappingSource, tables: Tables, rows: seq<MapRow>, value: string) {
    && schema.HasColumn(source.table, source.column)
    && NeedsMapping(kind, source, value) && !IsNewValue(rows, kind, value)
    && exists row | row in tables[source.table] :: Field(row, source.column) == Text(value) && Matches(source, row, value)
  }

  ghost predicate CollectsFromColumn(schema: Schema, kind: Kind, source: Source, tables: Tables, value: string) {
    && schema.HasColumn(source.0, source.1)
    && exists row | row in tables[source.0] ::
      Field(row, source.1).Doc? && value in Collect(Field(row, source.1).tree, source, kind, "")
  }

  ghost predicate CollectsFromJson(
    schema: Schema, kind: Kind, columns: seq<(Table, Column)>, tables: Tables, value: string) {
    exists tc | tc in columns :: CollectsFromColumn(schema, kind, tc, tables, value)
  }

  /** `collectValues`: what the queries over every source and the scan of every JSON document find. */
  ghost predicate IsCollected(schema: Schema, kind: Kind, tables: Tables, rows: seq<MapRow>, value: string) {
    || (exists source :: IsSource(kind, source) && CollectsFrom(schema, kind, source, tables, rows, value))
    || CollectsFromJson(schema, kind, JSON_COLUMNS, tables, value)
  }

  predicate RowGives(source: MappingSource, kind: Kind, rows: seq<MapRow>, row: Row, value: string) {
    && Field(row, source.column) == Text(value) && Matches(source, row, value)
    && NeedsMapping(kind, source, value) && !IsNewValue(rows, kind, value)
  }

  predicate ListedOnce(values: seq<string>) {
    forall i, j | 0 <= i < j < |values| :: values[i] != values[j]
  }

  /** Adding to the result set, which keeps the order of insertion. */
  function Including(values: seq<string>, value: string): (r: seq<string>)
    requires ListedOnce(values)
    ensures ListedOnce(r) && forall v :: v in r <==> (v in values || v == value)
  {
    if value in values then values else values + [value]
  }

  /** The rows of one source, added to what was found before. */
  method CollectFromSource(
    schema: Schema, kind: Kind, source: MappingSource, tables: Tables, rows: seq<MapRow>, found: seq<string>)
    returns (values: seq<string>)
    requires ListedOnce(found)
    ensures ListedOnce(values)
    ensures forall v :: v in values <==> (v in found || CollectsFrom(schema, kind, source, tables, rows, v))
  {
    values := found;
    if !schema.HasColumn(source.table, source.column) {
      return;
    }
    var table := tables[source.table];
    for i := 0 to |table|
      invariant ListedOnce(values)
      invariant forall v :: v in values <==> (v in found || exists j | 0 <= j < i :: RowGives(source, kind, rows, table[j], v))
    {
      var cell := Field(table[i], source.column);
      if cell.Text? && RowGives(source, kind, rows, table[i], cell.text) {
        values := Including(values, cell.text);
      }
    }
    forall v ensures v in values <==> (v in found || CollectsFrom(schema, kind, source, tables, rows, v)) {
      if CollectsFrom(schema, kind, source, tables, rows, v) {
        var row :| row in table && Field(row, source.column) == Text(v) && Matches(source, row, v);
        var j :| 0 <= j < |table| && table[j] == row;
        assert RowGives(source, kind, rows, table[j], v);
      }
    }
  }

  datatype CollectError = InvalidJson(table: Table, column: Column)

  /** A stored text that is no document. */
  predicate HoldsInvalidJson(schema: Schema, source: Source, tables: Tables) {
    schema.HasColumn(source.0, source.1) && exists row | row in tables[source.0] :: Field(row, source.1).Text?
  }

  /** One JSON column, added to what was found before. */
  method CollectFromColumn(schema: Schema, kind: Kind, source: Source, tables: Tables, found: set<string>)
    returns (result: Result<set<string>, CollectError>)
    ensures result.Err? <==> HoldsInvalidJson(schema, source, tables)
    ensures result.Ok? ==>
      forall v :: v in result.value <==> (v in found || CollectsFromColumn(schema, kind, source, tables, v))
  {
    var values := found;
    if !schema.HasColumn(source.0, source.1) {
      return Ok(values);
    }
    var table := tables[source.0];
    for i := 0 to |table|
      invariant forall j | 0 <= j < i :: !Field(table[j], source.1).Text?
      invariant forall v :: v in values <==> (v in found || exists j | 0 <= j < i ::
        Field(table[j], source.1).Doc? && v in Collect(Field(table[j], source.1).tree, source, kind, ""))
    {
      var cell := Field(table[i], source.1);
      if cell.Text? {
        assert table[i] in table;
        return Err(InvalidJson(source.0, source.1));
      }
      if cell.Doc? {
        values := CollectJsonValuesForKind(cell.tree, source, kind, values, "");
      }
    }
    result := Ok(values);
  }

  /** `collectJsonMappingValues` over the listed columns. */
  method CollectJsonMappingValues(schema: Schema, kind: Kind, columns: seq<(Table, Column)>, tables: Tables)
    returns (result: Result<set<string>, CollectError>)
    ensures result.Err? <==> exists tc | tc in columns :: HoldsInvalidJson(schema, tc, tables)
    ensures result.Ok? ==> forall v :: v in result.value <==> CollectsFromJson(schema, kind, columns, tables, v)
  {
    hide HoldsInvalidJson, CollectsFromColumn;
    var values: set<string> := {};
    for i := 0 to |columns|
      invariant forall j | 0 <= j < i :: !HoldsInvalidJson(schema, columns[j], tables)
      invariant forall v :: v in values <==> exists j | 0 <= j < i :: CollectsFromColumn(schema, kind, columns[j], tables, v)
    {
      result := CollectFromColumn(schema, kind, columns[i], tables, values);
      if result.Err? {
        return;
      }
      values := result.value;
    }
    result := Ok(values);
  }

  method AppendAll(found: seq<string>, more: set<string>) returns (values: seq<string>)
    requires ListedOnce(found)
    ensures ListedOnce(values) && forall v :: v in values <==> (v in found || v in more)
  {
    values := found;
    var rest := more;
    while rest != {}
      invariant ListedOnce(values) && rest <= more
      invariant forall v :: v in values <==> (v in found || v in more - rest)
    {
      var v :| v in rest;
      values := Including(values, v);
      rest := rest - {v};
    }
  }

  /** `collectValues`. */
  method CollectValues(schema: Schema, kind: Kind, tables: Tables, rows: seq<MapRow>)
    returns (result: Result<seq<string>, CollectError>)
    ensures result.Err? <==> exists tc | tc in JSON_COLUMNS :: HoldsInvalidJson(schema, tc, tables)
    ensures result.Ok? ==> ListedOnce(result.value)
    ensures result.Ok? ==> forall v :: v in result.value <==> IsCollected(schema, kind, tables, rows, v)
  {
    hide IsSource, CollectsFrom, CollectsFromJson, HoldsInvalidJson, Sources;
    var sources := Sources(kind);
    var values: seq<string> := [];
    for i := 0 to |sources|
      invariant ListedOnce(values)
      invariant forall v :: v in values <==> exists j | 0 <= j < i :: CollectsFrom(schema, kind, sources[j], tables, rows, v)
    {
      values := CollectFromSource(schema, kind, sources[i], tables, rows, values);
    }
    var scanned := CollectJsonMappingValues(schema, kind, JSON_COLUMNS, tables);
    if scanned.Err? {
      return Err(scanned.error);
    }
    var all := AppendAll(values, scanned.value);
    forall v ensures v in all <==> IsCollected(schema, kind, tables, rows, v) {
      if source :| IsSource(kind, source) && CollectsFrom(schema, kind, source, tables, rows, v) {
        SourcesAreListed(kind, source);
        var j :| 0 <= j < |sources| && sources[j] == source;
      }
      if j :| 0 <= j < |sources| && CollectsFrom(schema, kind, sources[j], tables, rows, v) {
        SourcesAreListed(kind, sources[j]);
      }
    }
    result := Ok(all);
  }

  lemma {:induction false} JsonCollectsInvalid(value: Json, source: Source, kind: Kind, key: string, found: string)
    requires found in Collect(value, source, kind, key)
    ensures !MappedValueIsValid(kind, found)
    decreases value
  {
    match value {
      case JsonArray(items) =>
        var i :| 0 <= i < |items| && found in Collect(items[i], source, kind, key);
        JsonCollectsInvalid(items[i], source, kind, key, found);
      case JsonObject(entries) =>
        var i :| 0 <= i < |entries| && found in CollectEntry(entries[i], source, kind);
        assert entries[i].value < entries[i];
        JsonCollectsInvalid(entries[i].value, source, kind, entries[i].key, found);
      case _ =>
    }
  }

  /** Under a kind that is not rotated, only malformed values are collected. */
  lemma CollectedIsInvalid(schema: Schema, kind: Kind, tables: Tables, rows: seq<MapRow>, value: string)
    requires IsCollected(schema, kind, tables, rows, value) && !RotatesAll(kind)
    ensures !MappedValueIsValid(kind, value)
  {
    if CollectsFromJson(schema, kind, JSON_COLUMNS, tables, value) {
      var tc :| tc in JSON_COLUMNS && CollectsFromColumn(schema, kind, tc, tables, value);
      var row :| row in tables[tc.0] && Field(row, tc.1).Doc? && value in Collect(Field(row, tc.1).tree, tc, kind, "");
      JsonCollectsInvalid(Field(row, tc.1).tree, tc, kind, "", value);
    } else {
      var source :| IsSource(kind, source) && CollectsFrom(schema, kind, source, tables, rows, value);
    }
  }

  // Drawing new values.

  function NewValues(rows: seq<MapRow>): set<string> {
    set i | 0 <= i < |rows| :: rows[i].newValue
  }

  /** One row for each key, no new value twice, and every new value in the format of its kind. */
  ghost predicate SoundRows(rows: seq<MapRow>) {
    && DistinctKeys(rows)
    && (forall i, j | 0 <= i < j < |rows| :: rows[i].newValue != rows[j].newValue)
    && (forall row | row in rows :: MappedValueIsValid(row.kind, row.newValue))
  }

  /** What the map table itself enforces: one row for each key, and no new value twice under one kind. */
  ghost predicate MeetsConstraints(rows: seq<MapRow>) {
    && DistinctKeys(rows)
    && forall i, j | 0 <= i < j < |rows| && rows[i].kind == rows[j].kind :: rows[i].newValue != rows[j].newValue
  }

  lemma FreshRowMeetsConstraints(rows: seq<MapRow>, row: MapRow)
    requires MeetsConstraints(rows) && row.newValue !in NewValues(rows)
    ensures MeetsConstraints(InsertRow(rows, row))
    ensures NewValues(InsertRow(rows, row)) == if HasKey(rows, row.Key()) then NewValues(rows) else NewValues(rows) + {row.newValue}
  {
    var after := InsertRow(rows, row);
    if !HasKey(rows, row.Key()) {
      assert forall i | 0 <= i < |rows| :: after[i] == rows[i] && rows[i].newValue in NewValues(rows) && rows[i] in rows;
      assert after[|rows|] == row;
    }
  }

  lemma FreshRowIsSound(rows: seq<MapRow>, row: MapRow)
    requires SoundRows(rows) && row.newValue !in NewValues(rows) && MappedValueIsValid(row.kind, row.newValue)
    ensures SoundRows(InsertRow(rows, row))
  {
    var after := InsertRow(rows, row);
    if !HasKey(rows, row.Key()) {
      assert forall i | 0 <= i < |rows| :: after[i] == rows[i] && rows[i].newValue in NewValues(rows) && rows[i] in rows;
      assert after[|rows|] == row;
    }
  }

  /** Every value is new to the map and listed once. */
  ghost predicate AllUnmapped(rows: seq<MapRow>, kind: Kind, values: seq<string>) {
    && (forall v | v in values :: !HasKey(rows, (kind, v)))
    && (forall i, j | 0 <= i < j < |values| :: values[i] != values[j])
  }

  /** Only fresh rows of one kind were appended, one for each value that had none. */
  ghost predicate Extends(before: seq<MapRow>, after: seq<MapRow>, kind: Kind, values: seq<string>, draws: seq<string>) {
    && before <= after
    && (forall row | row in after[|before|..] :: row.kind == kind && row.oldValue in values && row.newValue in draws)
    && (forall v | v in values :: HasKey(after, (kind, v)))
  }

  lemma ExtendsByOne(
    rows: seq<MapRow>, sofar: seq<MapRow>, kind: Kind, values: seq<string>, i: nat, draws: seq<string>, row: MapRow)
    requires i < |values| && Extends(rows, sofar, kind, values[..i], draws)
    requires row.kind == kind && row.oldValue == values[i] && row.newValue in draws
    ensures Extends(rows, InsertRow(sofar, row), kind, values[..i + 1], draws)
  {
    var next := InsertRow(sofar, row);
    assert values[..i + 1] == values[..i] + [values[i]];
    assert next == sofar || next[|rows|..] == sofar[|rows|..] + [row];
    forall v | v in values[..i + 1] ensures HasKey(next, (kind, v)) {
      if v in values[..i] {
        assert HasKey(sofar, (kind, v));
      } else if !HasKey(sofar, row.Key()) {
        assert row in next && row.Key() == (kind, v);
      }
    }
  }

  lemma UnmappedRest(rows: seq<MapRow>, kind: Kind, values: seq<string>, row: MapRow)
    requires values != [] && AllUnmapped(rows, kind, values) && row.Key() == (kind, values[0])
    ensures !HasKey(rows, row.Key()) && AllUnmapped(InsertRow(rows, row), kind, values[1..])
  {
    assert values[0] in values;
    forall v | v in values[1..] ensures !HasKey(rows + [row], (kind, v)) {
      var j :| 0 <= j < |values[1..]| && values[1..][j] == v;
      assert v == values[j + 1] && v in values;
    }
  }

  /**
   * `addMappings`, with the generator as a finite supply of draws: a draw that is in use is skipped. The table may hold
   * any rows its constraints admit. It is incomplete only when every draw has been used up.
   */
  method AddMappings(rows: seq<MapRow>, kind: Kind, values: seq<string>, draws: seq<string>, now: int)
    returns (after: seq<MapRow>, complete: bool)
    requires MeetsConstraints(rows)
    requires forall draw | draw in draws :: MappedValueIsValid(kind, draw)
    ensures MeetsConstraints(after) && (SoundRows(rows) ==> SoundRows(after))
    ensures complete ==> Extends(rows, after, kind, values, draws)
    ensures !complete && AllUnmapped(rows, kind, values) ==> forall draw | draw in draws :: draw in NewValues(after)
    ensures !complete ==> |Different(draws)| < |rows| + |values|
    ensures |after| <= |rows| + |values|
  {
    hide SoundRows, MeetsConstraints, Extends, AllUnmapped, MappedValueIsValid, HasKey, InsertRow, Different, NewValues;
    NewValuesAreFew(rows);
    after := rows;
    var used := NewValues(rows);
    var next := 0;
    var i := 0;
    ExtendsNothing(rows, kind, values[..0], draws);
    assert values[0..] == values;
    while i < |values|
      invariant 0 <= i <= |values| && 0 <= next <= |draws|
      invariant MeetsConstraints(after) && (SoundRows(rows) ==> SoundRows(after)) && NewValues(after) <= used
      invariant |used| <= |rows| + i && |after| <= |rows| + i
      invariant Extends(rows, after, kind, values[..i], draws)
      invariant AllUnmapped(rows, kind, values) ==> used == NewValues(after) && AllUnmapped(after, kind, values[i..])
      invariant forall j | 0 <= j < next :: draws[j] in used
    {
      while next < |draws| && draws[next] in used
        invariant 0 <= next <= |draws|
        invariant forall j | 0 <= j < next :: draws[j] in used
      {
        next := next + 1;
      }
      if next == |draws| {
        DifferentWithin(draws, used);
        return after, false;
      }
      var row := MapRow(kind, values[i], draws[next], now);
      assert draws[next] in draws;
      FreshRowMeetsConstraints(after, row);
      if SoundRows(rows) {
        FreshRowIsSound(after, row);
      }
      ExtendsByOne(rows, after, kind, values, i, draws, row);
      assert values[i..][1..] == values[i + 1..];
      if AllUnmapped(rows, kind, values) {
        UnmappedRest(after, kind, values[i..], row);
      }
      used := used + {draws[next]};
      InsertedIsOneMore(after, row);
      after := InsertRow(after, row);
      next := next + 1;
      i := i + 1;
    }
    assert values[..i] == values;
    complete := true;
  }

  function Different(draws: seq<string>): set<string> {
    set draw | draw in draws
  }

  lemma {:induction false} SmallerWithin<T>(a: set<T>, b: set<T>)
    requires a <= b
    ensures |a| <= |b|
  {
    if a != {} {
      var x :| x in a;
      SmallerWithin(a - {x}, b - {x});
    }
  }

  lemma DifferentWithin(draws: seq<string>, used: set<string>)
    requires forall j | 0 <= j < |draws| :: draws[j] in used
    ensures |Different(draws)| <= |used|
  {
    SmallerWithin(Different(draws), used);
  }

  lemma {:induction false} NewValuesAreFew(rows: seq<MapRow>)
    ensures |NewValues(rows)| <= |rows|
    decreases |rows|
  {
    if rows != [] {
      var init, last := rows[..|rows| - 1], rows[|rows| - 1];
      NewValuesAreFew(init);
      assert forall i | 0 <= i < |init| :: init[i] == rows[i];
      assert NewValues(rows) == NewValues(init) + {last.newValue};
    }
  }

  lemma InsertedIsOneMore(rows: seq<MapRow>, row: MapRow)
    ensures |InsertRow(rows, row)| <= |rows| + 1
  {
  }

  lemma ExtendsNothing(rows: seq<MapRow>, kind: Kind, values: seq<string>, draws: seq<string>)
    requires values == []
    ensures Extends(rows, rows, kind, values, draws)
  {
  }

  // The whole map.

  /** The map begins with what the table held; in the rows added, old values were collected and new ones drawn. */
  ghost predicate ComesFrom(
    schema: Schema, tables: Tables, draws: Kind -> seq<string>, start: seq<MapRow>, rows: seq<MapRow>) {
    && start <= rows
    && forall row | row in rows[|start|..] ::
      IsCollected(schema, row.kind, tables, start, row.oldValue) && row.newValue in draws(row.kind)
  }

  /** Every value collected under the kinds has a mapping. */
  ghost predicate Complete(schema: Schema, kinds: seq<Kind>, tables: Tables, start: seq<MapRow>, rows: seq<MapRow>) {
    forall kind, v | kind in kinds && IsCollected(schema, kind, tables, start, v) :: HasKey(rows, (kind, v))
  }

  /** A draw has the format and the length of its kind. */
  ghost predicate DrawIsGood(kind: Kind, draw: string) {
    MappedValueIsValid(kind, draw) && |draw| == GeneratedLength(kind)
  }

  /** The value stands in the token column. */
  ghost predicate IsLiveToken(schema: Schema, tables: Tables, place: (Kind, Table, Column), value: string) {
    && schema.HasColumn(place.1, place.2) && value != ""
    && exists row | row in tables[place.1] :: Field(row, place.2) == Text(value)
  }

  /** Every live token of these kinds, well formed or not, has a mapping, unless it is itself the new value of one. */
  ghost predicate TokensAreMapped(schema: Schema, kinds: seq<Kind>, tables: Tables, start: seq<MapRow>, rows: seq<MapRow>) {
    forall place, value | place in TOKEN_COLUMNS && place.0 in kinds && IsLiveToken(schema, tables, place, value) ::
      HasKey(rows, (place.0, value)) || IsNewValue(start, place.0, value)
  }

  lemma LiveTokensAreMapped(schema: Schema, kinds: seq<Kind>, tables: Tables, start: seq<MapRow>, rows: seq<MapRow>)
    requires Complete(schema, kinds, tables, start, rows)
    ensures TokensAreMapped(schema, kinds, tables, start, rows)
  {
    hide PrimaryTable, PrimaryColumn, TOKEN_COLUMNS, RotatesAll, CollectsFromJson, IsNewValue;
    forall place, value | place in TOKEN_COLUMNS && place.0 in kinds && IsLiveToken(schema, tables, place, value)
      ensures HasKey(rows, (place.0, value)) || IsNewValue(start, place.0, value)
    {
      TokenColumnsArePrimary(place);
      var source := MappingSource(place.1, place.2, None, false);
      assert IsPlainSource(place.0, source);
      if !IsNewValue(start, place.0, value) {
        assert CollectsFrom(schema, place.0, source, tables, start, value);
        assert IsCollected(schema, place.0, tables, start, value);
      }
    }
  }

  /** A value in a column that may hold ids of the kind, in a row of the right type. */
  ghost predicate IsSourced(schema: Schema, kind: Kind, source: MappingSource, tables: Tables, value: string) {
    && IsSource(kind, source) && schema.HasColumn(source.table, source.column)
    && exists row | row in tables[source.table] :: Field(row, source.column) == Text(value) && Matches(source, row, value)
  }

  /** Every malformed id in every column that may hold one has a mapping, but for the empty text where it means nothing. */
  ghost predicate MalformedAreMapped(schema: Schema, kinds: seq<Kind>, tables: Tables, start: seq<MapRow>, rows: seq<MapRow>) {
    forall kind, source, value |
      kind in kinds && IsSourced(schema, kind, source, tables, value) && IsMalformed(value)
      && !(value == "" && (EmptyIsSentinel(source.table, source.column) || RotatesAll(kind))) ::
      HasKey(rows, (kind, value)) || IsNewValue(start, kind, value)
  }

  lemma MalformedHaveMappings(schema: Schema, kinds: seq<Kind>, tables: Tables, start: seq<MapRow>, rows: seq<MapRow>)
    requires Complete(schema, kinds, tables, start, rows)
    ensures MalformedAreMapped(schema, kinds, tables, start, rows)
  {
    hide IsSource, PrimaryTable, PrimaryColumn, RotatesAll, CollectsFromJson, IsNewValue, Matches, IsMalformed, HasForeignChar;
    forall kind, source, value |
      kind in kinds && IsSourced(schema, kind, source, tables, value) && IsMalformed(value)
      && !(value == "" && (EmptyIsSentinel(source.table, source.column) || RotatesAll(kind)))
      ensures HasKey(rows, (kind, value)) || IsNewValue(start, kind, value)
    {
      MalformedExactlyIf(value);
      if !IsNewValue(start, kind, value) {
        assert CollectsFrom(schema, kind, source, tables, start, value);
        assert IsCollected(schema, kind, tables, start, value);
      }
    }
  }

  /**
   * Nothing else is mapped: an added row replaces a live token, or a malformed value that some column or document holds.
   */
  ghost predicate OnlyNeededAreMapped(schema: Schema, tables: Tables, start: seq<MapRow>, rows: seq<MapRow>) {
    start <= rows && forall row | row in rows[|start|..] ::
      || (exists place | place in TOKEN_COLUMNS && place.0 == row.kind :: IsLiveToken(schema, tables, place, row.oldValue))
      || (IsMalformed(row.oldValue) && exists source :: IsSourced(schema, row.kind, source, tables, row.oldValue))
      || CollectsFromJson(schema, row.kind, JSON_COLUMNS, tables, row.oldValue)
  }

  lemma AddedRowsAreNeeded(
    schema: Schema, tables: Tables, draws: Kind -> seq<string>, start: seq<MapRow>, rows: seq<MapRow>)
    requires ComesFrom(schema, tables, draws, start, rows)
    ensures OnlyNeededAreMapped(schema, tables, start, rows)
  {
    hide IsSource, PrimaryTable, PrimaryColumn, RotatesAll, CollectsFromJson, IsNewValue, Matches, IsMalformed, HasForeignChar,
      TOKEN_COLUMNS, EmptyIsSentinel;
    forall row | row in rows[|start|..] && !CollectsFromJson(schema, row.kind, JSON_COLUMNS, tables, row.oldValue)
      ensures
        || (exists place | place in TOKEN_COLUMNS && place.0 == row.kind :: IsLiveToken(schema, tables, place, row.oldValue))
        || (IsMalformed(row.oldValue) && exists source :: IsSourced(schema, row.kind, source, tables, row.oldValue))
    {
      var source :| IsSource(row.kind, source) && CollectsFrom(schema, row.kind, source, tables, start, row.oldValue);
      MalformedExactlyIf(row.oldValue);
      if RotatesAll(row.kind) && IsPrimary(row.kind, source) {
        var place := (row.kind, source.table, source.column);
        TokenColumnsArePrimary(place);
        assert IsLiveToken(schema, tables, place, row.oldValue);
      } else {
        assert IsSourced(schema, row.kind, source, tables, row.oldValue);
      }
    }
  }

  /** The generator draws good values and, for rotated kinds, none that is live or was replaced before. */
  ghost predicate GoodDraws(schema: Schema, tables: Tables, start: seq<MapRow>, draws: Kind -> seq<string>) {
    && (forall kind, draw | draw in draws(kind) :: DrawIsGood(kind, draw))
    && (forall place, draw | place in TOKEN_COLUMNS && draw in draws(place.0) ::
          !IsLiveToken(schema, tables, place, draw) && !HasKey(start, (place.0, draw)))
  }

  /** A well-formed value of a rotated kind is collected only where it is live. */
  lemma CollectedTokenIsLive(schema: Schema, kind: Kind, tables: Tables, rows: seq<MapRow>, value: string)
    requires RotatesAll(kind) && MappedValueIsValid(kind, value) && IsCollected(schema, kind, tables, rows, value)
    ensures IsLiveToken(schema, tables, (kind, PrimaryTable(kind), PrimaryColumn(kind)), value)
  {
    hide IsSource, Matches, MappedValueIsValid, HasForeignChar, PrimaryTable, PrimaryColumn, IsNewValue, RotatesAll;
    ValidValuesAreBase62(kind, value);
    if CollectsFromJson(schema, kind, JSON_COLUMNS, tables, value) {
      var tc :| tc in JSON_COLUMNS && CollectsFromColumn(schema, kind, tc, tables, value);
      var at :| at in tables[tc.0] && Field(at, tc.1).Doc? && value in Collect(Field(at, tc.1).tree, tc, kind, "");
      JsonCollectsInvalid(Field(at, tc.1).tree, tc, kind, "", value);
    }
  }

  lemma DrawsAreNotCollected(
    schema: Schema, tables: Tables, start: seq<MapRow>, draws: Kind -> seq<string>, kind: Kind, draw: string)
    requires GoodDraws(schema, tables, start, draws) && RotatesAll(kind) && draw in draws(kind)
    ensures !IsCollected(schema, kind, tables, [], draw) && !HasKey(start, (kind, draw))
  {
    hide IsCollected, IsLiveToken, MappedValueIsValid, PrimaryTable, PrimaryColumn, TOKEN_COLUMNS, RotatesAll;
    var place := (kind, PrimaryTable(kind), PrimaryColumn(kind));
    TokenColumnsArePrimary(place);
    assert DrawIsGood(kind, draw) && !IsLiveToken(schema, tables, place, draw);
    if IsCollected(schema, kind, tables, [], draw) {
      CollectedTokenIsLive(schema, kind, tables, [], draw);
    }
  }

  lemma NewRowsOfOtherKinds(start: seq<MapRow>, rows: seq<MapRow>, kind: Kind, value: string)
    requires start <= rows && forall row | row in rows[|start|..] :: row.kind != kind
    ensures IsNewValue(rows, kind, value) <==> IsNewValue(start, kind, value)
  {
    assert rows == start + rows[|start|..];
  }

  lemma CollectionIgnoresOtherKinds(
    schema: Schema, kind: Kind, tables: Tables, start: seq<MapRow>, rows: seq<MapRow>, value: string)
    requires start <= rows && forall row | row in rows[|start|..] :: row.kind != kind
    ensures IsCollected(schema, kind, tables, rows, value) <==> IsCollected(schema, kind, tables, start, value)
  {
    hide IsSource, NeedsMapping, Matches, CollectsFromJson, IsNewValue;
    NewRowsOfOtherKinds(start, rows, kind, value);
    forall source
      ensures CollectsFrom(schema, kind, source, tables, rows, value) <==> CollectsFrom(schema, kind, source, tables, start, value)
    {
    }
  }

  /** A table that holds new values excludes more. */
  lemma CollectedFromNothing(schema: Schema, kind: Kind, tables: Tables, start: seq<MapRow>, value: string)
    requires IsCollected(schema, kind, tables, start, value)
    ensures IsCollected(schema, kind, tables, [], value)
  {
    hide IsSource, NeedsMapping, Matches, CollectsFromJson;
    if source :| IsSource(kind, source) && CollectsFrom(schema, kind, source, tables, start, value) {
      assert !IsNewValue([], kind, value);
      assert CollectsFrom(schema, kind, source, tables, [], value);
    }
  }

  /** Different pairs of a kind and a value collected under it. */
  ghost predicate AreCollected(
    schema: Schema, kinds: seq<Kind>, tables: Tables, start: seq<MapRow>, pairs: seq<(Kind, string)>)
  {
    && (forall i, j | 0 <= i < j < |pairs| :: pairs[i] != pairs[j])
    && forall p | p in pairs :: p.0 in kinds && IsCollected(schema, p.0, tables, start, p.1)
  }

  /** For each kind the generator has as many different values as the map can come to hold. */
  ghost predicate Suffices(schema: Schema, kinds: seq<Kind>, tables: Tables, start: seq<MapRow>, draws: Kind -> seq<string>) {
    forall kind, pairs | kind in kinds && AreCollected(schema, kinds, tables, start, pairs) ::
      |start| + |pairs| <= |Different(draws(kind))|
  }

  function PairsOf(kind: Kind, values: seq<string>): (pairs: seq<(Kind, string)>)
    ensures |pairs| == |values| && forall i | 0 <= i < |values| :: pairs[i] == (kind, values[i])
  {
    seq(|values|, i requires 0 <= i < |values| => (kind, values[i]))
  }

  lemma CollectedMore(
    schema: Schema, kinds: seq<Kind>, i: nat, tables: Tables, start: seq<MapRow>, pairs: seq<(Kind, string)>,
    values: seq<string>)
    requires i < |kinds| && kinds[i] !in kinds[..i] && AreCollected(schema, kinds[..i], tables, start, pairs)
    requires ListedOnce(values) && forall v :: v in values <==> IsCollected(schema, kinds[i], tables, start, v)
    ensures AreCollected(schema, kinds[..i + 1], tables, start, pairs + PairsOf(kinds[i], values))
  {
    hide IsCollected;
    var more := pairs + PairsOf(kinds[i], values);
    assert kinds[..i + 1] == kinds[..i] + [kinds[i]];
    forall p | p in more ensures p.0 in kinds[..i + 1] && IsCollected(schema, p.0, tables, start, p.1) {
      if p !in pairs {
        var k :| 0 <= k < |values| && PairsOf(kinds[i], values)[k] == p;
        assert values[k] in values;
      }
    }
    forall a, b | 0 <= a < b < |more| ensures more[a] != more[b] {
      if a < |pairs| <= b {
        assert pairs[a] in pairs && pairs[a].0 in kinds[..i];
      } else if |pairs| <= a {
        assert values[a - |pairs|] != values[b - |pairs|];
      }
    }
  }

  lemma TooFewDraws(
    schema: Schema, kinds: seq<Kind>, i: nat, tables: Tables, start: seq<MapRow>, draws: Kind -> seq<string>,
    pairs: seq<(Kind, string)>)
    requires i < |kinds| && AreCollected(schema, kinds[..i + 1], tables, start, pairs)
    requires |Different(draws(kinds[i]))| < |start| + |pairs|
    ensures !Suffices(schema, kinds, tables, start, draws)
  {
    hide IsCollected;
    assert forall kind | kind in kinds[..i + 1] :: kind in kinds;
    assert AreCollected(schema, kinds, tables, start, pairs);
    assert kinds[i] in kinds;
  }

  datatype MapError = BadJson(error: CollectError) | OutOfDraws(kind: Kind)

  lemma MapGrows(
    schema: Schema, tables: Tables, kinds: seq<Kind>, i: nat, draws: Kind -> seq<string>, values: seq<string>,
    start: seq<MapRow>, rows: seq<MapRow>, after: seq<MapRow>)
    requires i < |kinds| && Extends(rows, after, kinds[i], values, draws(kinds[i]))
    requires forall v :: v in values <==> IsCollected(schema, kinds[i], tables, start, v)
    requires ComesFrom(schema, tables, draws, start, rows) && Complete(schema, kinds[..i], tables, start, rows)
    ensures ComesFrom(schema, tables, draws, start, after) && Complete(schema, kinds[..i + 1], tables, start, after)
    ensures forall row | row in after[|start|..] :: row in rows[|start|..] || row.kind == kinds[i]
  {
    hide IsCollected;
    assert after[|start|..] == rows[|start|..] + after[|rows|..];
    forall kind, v | kind in kinds[..i + 1] && IsCollected(schema, kind, tables, start, v) ensures HasKey(after, (kind, v)) {
      assert kinds[..i + 1] == kinds[..i] + [kinds[i]];
      if kind in kinds[..i] {
        assert HasKey(rows, (kind, v));
      }
    }
  }

  /** Collecting and mapping kind by kind, into a map table with any rows its constraints admit. */
  method BuildMap(
    schema: Schema, kinds: seq<Kind>, draws: Kind -> seq<string>, start: seq<MapRow>, tables: Tables, now: int)
    returns (result: Result<seq<MapRow>, MapError>)
    requires MeetsConstraints(start) && GoodDraws(schema, tables, start, draws)
    requires forall i, j | 0 <= i < j < |kinds| :: kinds[i] != kinds[j]
    ensures result.Ok? ==> MeetsConstraints(result.value) && (SoundRows(start) ==> SoundRows(result.value))
    ensures result.Ok? ==> ComesFrom(schema, tables, draws, start, result.value)
    ensures result.Ok? ==> Complete(schema, kinds, tables, start, result.value)
    ensures result.Ok? ==>
      && TokensAreMapped(schema, kinds, tables, start, result.value)
      && MalformedAreMapped(schema, kinds, tables, start, result.value)
      && OnlyNeededAreMapped(schema, tables, start, result.value)
    ensures result.Err? && result.error.BadJson? ==> exists tc | tc in JSON_COLUMNS :: HoldsInvalidJson(schema, tc, tables)
    ensures result.Err? && result.error.OutOfDraws? ==> !Suffices(schema, kinds, tables, start, draws)
    ensures kinds != [] && (exists tc | tc in JSON_COLUMNS :: HoldsInvalidJson(schema, tc, tables)) ==> result.Err?
  {
    hide SoundRows, MeetsConstraints, IsSource, IsCollected, Extends, HoldsInvalidJson, Complete, ComesFrom,
      MappedValueIsValid, TokensAreMapped, MalformedAreMapped, OnlyNeededAreMapped, AreCollected, Suffices;
    var rows := start;
    ghost var pairs: seq<(Kind, string)> := [];
    NothingIsCollectedYet(schema, kinds[..0], tables, start);
    NothingIsAdded(schema, tables, draws, start, kinds[..0]);
    for i := 0 to |kinds|
      invariant MeetsConstraints(rows) && (SoundRows(start) ==> SoundRows(rows)) && start <= rows
      invariant ComesFrom(schema, tables, draws, start, rows) && Complete(schema, kinds[..i], tables, start, rows)
      invariant forall row | row in rows[|start|..] :: row.kind in kinds[..i]
      invariant AreCollected(schema, kinds[..i], tables, start, pairs) && |rows| <= |start| + |pairs|
      invariant i > 0 ==> !exists tc | tc in JSON_COLUMNS :: HoldsInvalidJson(schema, tc, tables)
    {
      var kind := kinds[i];
      var values := CollectValues(schema, kind, tables, rows);
      if values.Err? {
        return Err(BadJson(values.error));
      }
      forall v ensures v in values.value <==> IsCollected(schema, kind, tables, start, v) {
        CollectionIgnoresOtherKinds(schema, kind, tables, start, rows, v);
      }
      DrawsAreValid(schema, tables, start, draws, kind);
      var after, complete := AddMappings(rows, kind, values.value, draws(kind), now);
      CollectedMore(schema, kinds, i, tables, start, pairs, values.value);
      pairs := pairs + PairsOf(kind, values.value);
      if !complete {
        TooFewDraws(schema, kinds, i, tables, start, draws, pairs);
        return Err(OutOfDraws(kind));
      }
      MapGrows(schema, tables, kinds, i, draws, values.value, start, rows, after);
      BeginsWith(schema, tables, draws, start, after);
      rows := after;
    }
    assert kinds[..|kinds|] == kinds;
    LiveTokensAreMapped(schema, kinds, tables, start, rows);
    MalformedHaveMappings(schema, kinds, tables, start, rows);
    AddedRowsAreNeeded(schema, tables, draws, start, rows);
    result := Ok(rows);
  }

  lemma NothingIsCollectedYet(schema: Schema, kinds: seq<Kind>, tables: Tables, start: seq<MapRow>)
    ensures AreCollected(schema, kinds, tables, start, [])
  {
  }

  lemma DrawsAreValid(schema: Schema, tables: Tables, start: seq<MapRow>, draws: Kind -> seq<string>, kind: Kind)
    requires GoodDraws(schema, tables, start, draws)
    ensures forall draw | draw in draws(kind) :: MappedValueIsValid(kind, draw)
  {
    hide MappedValueIsValid, IsCollected;
    assert forall draw | draw in draws(kind) :: DrawIsGood(kind, draw);
  }

  lemma BeginsWith(schema: Schema, tables: Tables, draws: Kind -> seq<string>, start: seq<MapRow>, rows: seq<MapRow>)
    requires ComesFrom(schema, tables, draws, start, rows)
    ensures start <= rows
  {
  }

  lemma NothingIsAdded(schema: Schema, tables: Tables, draws: Kind -> seq<string>, start: seq<MapRow>, kinds: seq<Kind>)
    requires kinds == []
    ensures ComesFrom(schema, tables, draws, start, start) && Complete(schema, kinds, tables, start, start)
  {
  }

  lemma KeyComesFromRow(rows: seq<MapRow>, key: (Kind, string)) returns (row: MapRow)
    requires DistinctKeys(rows) && key in AsMap(rows)
    ensures row in rows && row.Key() == key && row.newValue == AsMap(rows)[key]
  {
    AsMapKeys(rows);
    row :| row in rows && row.Key() == key;
    AsMapLooksUp(rows, row);
  }

  /** A row of the map was there before, or was added. */
  lemma StartRowLooksUp(start: seq<MapRow>, rows: seq<MapRow>, row: MapRow)
    requires start <= rows && DistinctKeys(rows) && row in start
    ensures row.Key() in AsMap(start) && AsMap(start)[row.Key()] == row.newValue
  {
    assert forall i | 0 <= i < |start| :: start[i] == rows[i];
    AsMapLooksUp(start, row);
  }

  lemma RowIsOldOrAdded(start: seq<MapRow>, rows: seq<MapRow>, row: MapRow)
    requires start <= rows && row in rows
    ensures row in start || row in rows[|start|..]
  {
    assert rows == start + rows[|start|..];
  }

  /** New values of the right lengths. */
  ghost predicate HasGeneratedLengths(m: IdMap) {
    forall key | key in m :: |m[key]| == GeneratedLength(key.0)
  }

  /** What the map relies on when the run starts: a table that is empty, or was filled by the same rules. */
  ghost predicate GoodStart(start: seq<MapRow>) {
    SoundRows(start) && WellFormedMap(AsMap(start)) && HasGeneratedLengths(AsMap(start))
  }

  lemma EmptyStartIsGood()
    ensures GoodStart([])
  {
  }

  /** A new value is valid, has the length of its kind and, if nothing is rotated, replaces a malformed one. */
  lemma MappedRowIsGood(
    schema: Schema, tables: Tables, draws: Kind -> seq<string>, start: seq<MapRow>, rows: seq<MapRow>, row: MapRow)
    requires SoundRows(rows) && ComesFrom(schema, tables, draws, start, rows) && GoodDraws(schema, tables, start, draws)
    requires GoodStart(start) && row in rows
    ensures MappedValueIsValid(row.kind, row.newValue) && |row.newValue| == GeneratedLength(row.kind)
    ensures !RotatesAll(row.kind) ==> !MappedValueIsValid(row.kind, row.oldValue)
  {
    hide IsCollected, MappedValueIsValid, RotatesAll, GeneratedLength;
    RowIsOldOrAdded(start, rows, row);
    if row in start {
      StartRowLooksUp(start, rows, row);
      assert row.Key() in AsMap(start);
    } else {
      assert DrawIsGood(row.kind, row.newValue);
      if !RotatesAll(row.kind) {
        CollectedIsInvalid(schema, row.kind, tables, start, row.oldValue);
      }
    }
  }

  /** What is collected is no new value, or is malformed. */
  lemma CollectedIsNotNew(schema: Schema, kind: Kind, tables: Tables, start: seq<MapRow>, value: string, row: MapRow)
    requires IsCollected(schema, kind, tables, start, value)
    requires row in start && row.kind == kind && MappedValueIsValid(kind, row.newValue)
    ensures row.newValue != value
  {
    hide IsSource, NeedsMapping, Matches, MappedValueIsValid;
    if CollectsFromJson(schema, kind, JSON_COLUMNS, tables, value) {
      var tc :| tc in JSON_COLUMNS && CollectsFromColumn(schema, kind, tc, tables, value);
      var at :| at in tables[tc.0] && Field(at, tc.1).Doc? && value in Collect(Field(at, tc.1).tree, tc, kind, "");
      JsonCollectsInvalid(Field(at, tc.1).tree, tc, kind, "", value);
    } else {
      var source :| IsSource(kind, source) && CollectsFrom(schema, kind, source, tables, start, value);
      assert !IsNewValue(start, kind, value);
    }
  }

  /** Under a rotated kind no new value is an old one. */
  lemma RotatedRowsAreDisjoint(
    schema: Schema, tables: Tables, draws: Kind -> seq<string>, start: seq<MapRow>, rows: seq<MapRow>, a: MapRow, b: MapRow)
    requires SoundRows(rows) && ComesFrom(schema, tables, draws, start, rows) && GoodDraws(schema, tables, start, draws)
    requires GoodStart(start) && a in rows && b in rows && a.kind == b.kind && RotatesAll(a.kind)
    ensures a.newValue != b.oldValue
  {
    hide IsCollected, MappedValueIsValid, RotatesAll, GeneratedLength;
    RowIsOldOrAdded(start, rows, a);
    RowIsOldOrAdded(start, rows, b);
    if b in rows[|start|..] {
      if a in start {
        CollectedIsNotNew(schema, b.kind, tables, start, b.oldValue, a);
      } else {
        DrawsAreNotCollected(schema, tables, start, draws, a.kind, a.newValue);
        CollectedFromNothing(schema, b.kind, tables, start, b.oldValue);
      }
    } else if a in start {
      StartRowLooksUp(start, rows, a);
      StartRowLooksUp(start, rows, b);
      assert a.Key() in AsMap(start) && b.Key() in AsMap(start);
    } else {
      DrawsAreNotCollected(schema, tables, start, draws, a.kind, a.newValue);
      assert HasKey(start, b.Key());
    }
  }

  /** The map so built has everything the rewriting passes rely on. */
  lemma BuiltMapIsWellFormed(
    schema: Schema, tables: Tables, draws: Kind -> seq<string>, start: seq<MapRow>, rows: seq<MapRow>)
    requires SoundRows(rows) && ComesFrom(schema, tables, draws, start, rows) && GoodDraws(schema, tables, start, draws)
    requires GoodStart(start)
    ensures WellFormedMap(AsMap(rows)) && NewValuesDistinct(AsMap(rows)) && HasGeneratedLengths(AsMap(rows))
  {
    hide IsCollected, MappedValueIsValid, RotatesAll, GeneratedLength, GoodDraws, ComesFrom, GoodStart;
    var m := AsMap(rows);
    forall key | key in m
      ensures MappedValueIsValid(key.0, m[key]) && |m[key]| == GeneratedLength(key.0)
      ensures !RotatesAll(key.0) ==> !MappedValueIsValid(key.0, key.1)
    {
      var row := KeyComesFromRow(rows, key);
      MappedRowIsGood(schema, tables, draws, start, rows, row);
    }
    forall a, b | a in m && b in m && a.0 == b.0 && RotatesAll(a.0) ensures m[a] != b.1 {
      var from := KeyComesFromRow(rows, b);
      var to := KeyComesFromRow(rows, a);
      RotatedRowsAreDisjoint(schema, tables, draws, start, rows, to, from);
    }
    forall a, b | a in m && b in m && m[a] == m[b] ensures a == b {
      var first := KeyComesFromRow(rows, a);
      var second := KeyComesFromRow(rows, b);
      var i :| 0 <= i < |rows| && rows[i] == first;
      var j :| 0 <= j < |rows| && rows[j] == second;
    }
  }
}
