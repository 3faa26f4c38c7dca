/** The map table: rows in insertion order, one per (kind, old value). */
module IdMapTable {
  import opened IdRegistry
  import opened IdValues

  datatype MapRow = MapRow(kind: Kind, oldValue: string, newValue: string, createdAt: int)
  {
    function Key(): (Kind, string) {
      (kind, oldValue)
    }
  }

  predicate HasKey(rows: seq<MapRow>, key: (Kind, string)) {
    exists row | row in rows :: row.Key() == key
  }

  ghost predicate DistinctKeys(rows: seq<MapRow>) {
    forall i, j | 0 <= i < j < |rows| :: rows[i].Key() != rows[j].Key()
  }

  function AsMap(rows: seq<MapRow>): IdMap {
    if rows == [] then map[]
    else AsMap(rows[..|rows| - 1])[rows[|rows| - 1].Key() := rows[|rows| - 1].newValue]
  }

  /** INSERT ... ON CONFLICT(kind, old_value) DO NOTHING. */
  function InsertRow(rows: seq<MapRow>, row: MapRow): seq<MapRow> {
    if HasKey(rows, row.Key()) then rows else rows + [row]
  }

  function InsertRows(rows: seq<MapRow>, more: seq<MapRow>): seq<MapRow>
    decreases |more|
  {
    if more == [] then rows else InsertRows(InsertRow(rows, more[0]), more[1..])
  }

  lemma {:induction false} AsMapKeys(rows: seq<MapRow>)
    ensures forall key :: key in AsMap(rows) <==> HasKey(rows, key)
  {
    if rows != [] {
      var init, last := rows[..|rows| - 1], rows[|rows| - 1];
      AsMapKeys(init);
      assert rows == init + [last];
    }
  }

  lemma {:induction false} AsMapLooksUp(rows: seq<MapRow>, row: MapRow)
    requires DistinctKeys(rows) && row in rows
    ensures row.Key() in AsMap(rows) && AsMap(rows)[row.Key()] == row.newValue
  {
    var init, last := rows[..|rows| - 1], rows[|rows| - 1];
    if row != last {
      assert rows == init + [last];
      AsMapLooksUp(init, row);
      var i :| 0 <= i < |init| && init[i] == row;
      assert rows[i].Key() != rows[|rows| - 1].Key();
    }
  }

  lemma AsMapValues(rows: seq<MapRow>)
    requires DistinctKeys(rows)
    ensures forall key | key in AsMap(rows) :: exists row | row in rows :: row.newValue == AsMap(rows)[key]
  {
    AsMapKeys(rows);
    forall key | key in AsMap(rows) ensures exists row | row in rows :: row.newValue == AsMap(rows)[key] {
      var row :| row in rows && row.Key() == key;
      AsMapLooksUp(rows, row);
    }
  }

  /**
   * Insertion from any prefix of a table with distinct keys: rows already there are skipped, new ones land in order.
   */
  lemma {:induction false} InsertFromPrefix(table: seq<MapRow>, have: nat, from: nat, to: nat)
    requires DistinctKeys(table)
    requires from <= to <= |table| && from <= have <= |table|
    ensures InsertRows(table[..have], table[from..to]) == table[..if have < to then to else have]
    decreases |table| - from
  {
    var rows, more := table[..have], table[from..to];
    if from < to {
      assert more[0] == table[from] && more[1..] == table[from + 1..to];
      if from < have {
        assert rows[from] == table[from];
        InsertFromPrefix(table, have, from + 1, to);
      } else {
        forall row | row in rows ensures row.Key() != table[from].Key() {
          var i :| 0 <= i < |rows| && rows[i] == row;
          assert table[i].Key() != table[from].Key();
        }
        assert rows + [table[from]] == table[..have + 1];
        InsertFromPrefix(table, have + 1, from + 1, to);
      }
    }
  }
}
