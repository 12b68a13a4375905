/** The `additives` table of the SQLite file, keyed by its UNIQUE `e_number`
    column, and what INSERT OR REPLACE and `validate_database` do to it.
    A record's level, colour and category come in as an `Assessment`, so
    this module does not depend on how they are computed. */
module AdditiveStore {
  import opened Wrappers
  import opened Taxonomy

  /** One row of the `additives` table, without the engine's own `id` and
      `created_at` columns. */
  datatype Row = Row(
    eNumber: string, name: string, riskLevel: string, riskColor: string,
    category: string, description: string, vegetarian: string, vegan: string,
    efsaEvaluation: string, efsaUrl: string, efsaDate: string,
    additivesClasses: string, sources: string, lastUpdated: string)

  /** The `additives` table: at most one row per `e_number`. */
  type Table = map<string, Row>

  /** What the classifier and the category lookup say about a record. */
  datatype Assessment = Assessment(riskLevel: string, riskColor: string, category: string)

  const TOTAL_KEY := "total_additives"
  const EXPECTED_LEVELS: set<string> := {"GREEN", "YELLOW", "ORANGE", "RED"}
  const TABLE_MISSING := "Additives table not found!"

  /** The metadata rows the schema step writes; `createdDate` stands for the
      clock reading. */
  function InitialMetadata(createdDate: string): map<string, string> {
    map[
      "version" := "1.0",
      "created_date" := createdDate,
      TOTAL_KEY := "0",
      "data_sources" := "Open Food Facts, Manual"
    ]
  }

  /** A record the insert can write: reading `additive['e_number']` and
      `additive['name']` does not raise. */
  predicate Writable(additive: Record) {
    "e_number" in additive && "name" in additive
  }

  /** A row stored under `code`: it carries that code and the description
      the insert writes. */
  predicate RowWellFormed(code: string, row: Row) {
    row.eNumber == code && row.description == "Food additive " + code
  }

  predicate TableWellFormed(t: Table) {
    forall code :: code in t ==> RowWellFormed(code, t[code])
  }

  /** The row INSERT OR REPLACE writes for a record: its assessment, `.get`
      defaults for the optional fields and the clock reading for a missing
      `last_updated`. */
  function MakeRow(additive: Record, now: string, x: Assessment): (row: Row)
    requires Writable(additive)
    ensures RowWellFormed(additive["e_number"], row)
    ensures row.name == additive["name"]
    ensures (row.riskLevel, row.riskColor, row.category) == (x.riskLevel, x.riskColor, x.category)
  {
    var code := additive["e_number"];
    Row(
      code, additive["name"], x.riskLevel, x.riskColor, x.category, "Food additive " + code,
      Get(additive, "vegetarian", ""), Get(additive, "vegan", ""),
      Get(additive, "efsa_evaluation", ""), Get(additive, "efsa_url", ""),
      Get(additive, "efsa_date", ""), Get(additive, "additives_classes", ""),
      Get(additive, "source", ""), Get(additive, "last_updated", now))
  }

  /** One record through the body of the insert loop: its row, or `None`
      when reading `e_number` or `name` raises. */
  function Prepare(additive: Record, now: string, x: Assessment): (r: Option<Row>)
    ensures r.Some? <==> Writable(additive)
    ensures r.Some? ==> r.value.eNumber == additive["e_number"] && RowWellFormed(r.value.eNumber, r.value)
  {
    if Writable(additive) then Some(MakeRow(additive, now, x)) else None
  }

  /** Every record of a batch through the loop body, in order, each with
      the assessment `assess` gives it. */
  function PrepareAll(batch: seq<Record>, now: string, assess: Record -> Assessment): (rows: seq<Option<Row>>)
    ensures |rows| == |batch|
    decreases |batch|
  {
    if batch == [] then []
    else
      var n := |batch| - 1;
      PrepareAll(batch[..n], now, assess) + [Prepare(batch[n], now, assess(batch[n]))]
  }

  /** The i-th prepared row is the i-th record's. */
  lemma {:induction false} PrepareAllAt(batch: seq<Record>, now: string, assess: Record -> Assessment, i: nat)
    requires i < |batch|
    ensures PrepareAll(batch, now, assess)[i] == Prepare(batch[i], now, assess(batch[i]))
    decreases |batch|
  {
    var n := |batch| - 1;
    if i < n {
      PrepareAllAt(batch[..n], now, assess, i);
      assert batch[..n][i] == batch[i];
    }
  }

  /** Preparing one more record appends its row. */
  lemma PrepareAllSnoc(batch: seq<Record>, now: string, assess: Record -> Assessment, i: nat)
    requires i < |batch|
    ensures PrepareAll(batch[..i + 1], now, assess) ==
      PrepareAll(batch[..i], now, assess) + [Prepare(batch[i], now, assess(batch[i]))]
  {
    assert batch[..i + 1][..i] == batch[..i];
  }

  lemma {:induction false} PrepareAllAppend(p: seq<Record>, q: seq<Record>, now: string, assess: Record -> Assessment)
    ensures PrepareAll(p + q, now, assess) == PrepareAll(p, now, assess) + PrepareAll(q, now, assess)
    decreases |q|
  {
    if q == [] {
      assert p + q == p;
    } else {
      var n := |q| - 1;
      assert (p + q)[..|p + q| - 1] == p + q[..n];
      assert (p + q)[|p + q| - 1] == q[n];
      PrepareAllAppend(p, q[..n], now, assess);
    }
  }

  /** INSERT OR REPLACE of one prepared row: it replaces the whole row under
      its code; a record that raised leaves the table as it was. */
  function Upsert(t: Table, row: Option<Row>): (r: Table)
    ensures row.None? ==> r == t
    ensures row.Some? ==> r.Keys == t.Keys + {row.value.eNumber} && r[row.value.eNumber] == row.value
  {
    if row.Some? then t[row.value.eNumber := row.value] else t
  }

  /** The prepared rows of a batch, upserted in order. */
  function UpsertAll(t: Table, rows: seq<Option<Row>>): Table
    decreases |rows|
  {
    if rows == [] then t
    else Upsert(UpsertAll(t, rows[..|rows| - 1]), rows[|rows| - 1])
  }

  /** The number of rows written, which the insert counts as inserted. */
  function WrittenCount(rows: seq<Option<Row>>): (n: nat)
    ensures n <= |rows|
    ensures n == |rows| <==> forall i :: 0 <= i < |rows| ==> rows[i].Some?
    decreases |rows|
  {
    if rows == [] then 0
    else WrittenCount(rows[..|rows| - 1]) + if rows[|rows| - 1].Some? then 1 else 0
  }

  /** Upserting and counting one more row. */
  lemma UpsertSnoc(t: Table, rows: seq<Option<Row>>, row: Option<Row>)
    ensures UpsertAll(t, rows + [row]) == Upsert(UpsertAll(t, rows), row)
    ensures WrittenCount(rows + [row]) == WrittenCount(rows) + if row.Some? then 1 else 0
  {
    assert (rows + [row])[..|rows|] == rows;
  }

  /** One turn of the insert loop: upserting and counting the next record's
      row extends the batch processed so far by that record. */
  lemma InsertStep(t0: Table, batch: seq<Record>, now: string, assess: Record -> Assessment,
                   i: nat, t: Table, n: nat, row: Option<Row>)
    requires i < |batch|
    requires t == UpsertAll(t0, PrepareAll(batch[..i], now, assess))
    requires n == WrittenCount(PrepareAll(batch[..i], now, assess))
    requires row == Prepare(batch[i], now, assess(batch[i]))
    ensures Upsert(t, row) == UpsertAll(t0, PrepareAll(batch[..i + 1], now, assess))
    ensures n + (if row.Some? then 1 else 0) == WrittenCount(PrepareAll(batch[..i + 1], now, assess))
  {
    PrepareAllSnoc(batch, now, assess, i);
    UpsertSnoc(t0, PrepareAll(batch[..i], now, assess), row);
  }

  /** `row` is written under `code`. */
  predicate Writes(row: Option<Row>, code: string) {
    row.Some? && row.value.eNumber == code
  }

  /** The last row of the batch written under `code`, if any. */
  function LastWith(rows: seq<Option<Row>>, code: string): (r: Option<Row>)
    ensures r.None? <==> forall i :: 0 <= i < |rows| ==> !Writes(rows[i], code)
    ensures r.Some? ==> r.value.eNumber == code
    ensures r.Some? ==> exists i :: (0 <= i < |rows| && rows[i] == r &&
      forall j :: i < j < |rows| ==> !Writes(rows[j], code))
    decreases |rows|
  {
    if rows == [] then None
    else if Writes(rows[|rows| - 1], code) then rows[|rows| - 1]
    else LastWith(rows[..|rows| - 1], code)
  }

  /** What a batch leaves under one code: the last row written under it (a
      later record wins), or else what was there before (every other row is
      untouched). */
  lemma {:induction false} UpsertAllAt(t: Table, rows: seq<Option<Row>>, code: string)
    ensures var u, last := UpsertAll(t, rows), LastWith(rows, code);
      (code in u <==> code in t || last.Some?) &&
      (last.Some? ==> u[code] == last.value) &&
      (last.None? && code in t ==> u[code] == t[code])
    decreases |rows|
  {
    if rows != [] {
      UpsertAllAt(t, rows[..|rows| - 1], code);
    }
  }

  /** Inserting the same batch twice gives the table inserting it once
      gives: re-running the insert over the same records (the same taxonomy
      and curated list, at the same clock reading) changes no row. */
  lemma UpsertAllIdempotent(t: Table, rows: seq<Option<Row>>)
    ensures UpsertAll(UpsertAll(t, rows), rows) == UpsertAll(t, rows)
  {
    var u := UpsertAll(t, rows);
    var v := UpsertAll(u, rows);
    forall code
      ensures (code in v <==> code in u) && (code in v ==> v[code] == u[code])
    {
      UpsertAllAt(t, rows, code);
      UpsertAllAt(u, rows, code);
    }
    assert v.Keys == u.Keys;
  }

  /** A row written under `code` at the end of a batch decides `code`,
      whatever comes before. */
  lemma {:induction false} LastWithAppend(p: seq<Option<Row>>, q: seq<Option<Row>>, code: string)
    requires LastWith(q, code).Some?
    ensures LastWith(p + q, code) == LastWith(q, code)
    decreases |q|
  {
    var n := |q| - 1;
    assert (p + q)[..|p + q| - 1] == p + q[..n];
    assert (p + q)[|p + q| - 1] == q[n];
    if !Writes(q[n], code) {
      LastWithAppend(p, q[..n], code);
    }
  }

  /** The rows of a batch are all well formed. */
  predicate RowsWellFormed(rows: seq<Option<Row>>) {
    forall i :: 0 <= i < |rows| && rows[i].Some? ==> RowWellFormed(rows[i].value.eNumber, rows[i].value)
  }

  lemma PreparedRowsWellFormed(batch: seq<Record>, now: string, assess: Record -> Assessment)
    ensures RowsWellFormed(PrepareAll(batch, now, assess))
  {
    forall i | 0 <= i < |batch| && PrepareAll(batch, now, assess)[i].Some?
      ensures RowWellFormed(PrepareAll(batch, now, assess)[i].value.eNumber, PrepareAll(batch, now, assess)[i].value)
    {
      PrepareAllAt(batch, now, assess, i);
    }
  }

  /** Upserting well-formed rows keeps the table well formed. */
  lemma {:induction false} UpsertAllWellFormed(t: Table, rows: seq<Option<Row>>)
    requires TableWellFormed(t) && RowsWellFormed(rows)
    ensures TableWellFormed(UpsertAll(t, rows))
    decreases |rows|
  {
    if rows != [] {
      assert RowsWellFormed(rows[..|rows| - 1]);
      UpsertAllWellFormed(t, rows[..|rows| - 1]);
    }
  }

  /** Each written row adds at most one row to the table. */
  lemma {:induction false} RowCountBound(t: Table, rows: seq<Option<Row>>)
    ensures |UpsertAll(t, rows).Keys| <= |t.Keys| + WrittenCount(rows)
    decreases |rows|
  {
    if rows != [] {
      var n := |rows| - 1;
      RowCountBound(t, rows[..n]);
      var u := UpsertAll(t, rows[..n]);
      var v := UpsertAll(t, rows);
      assert v == Upsert(u, rows[n]);
      if rows[n].Some? {
        var code := rows[n].value.eNumber;
        if code in u {
          assert v.Keys == u.Keys;
        } else {
          assert v.Keys == u.Keys + {code};
        }
      }
    }
  }

  /** No code is written twice. */
  predicate DistinctCodes(rows: seq<Option<Row>>) {
    forall i, j :: 0 <= i < j < |rows| && rows[i].Some? && rows[j].Some? ==>
      rows[i].value.eNumber != rows[j].value.eNumber
  }

  /** Into an empty table, a batch whose codes do not repeat leaves one row
      per written record. */
  lemma {:induction false} DistinctCodesCountRows(rows: seq<Option<Row>>)
    requires DistinctCodes(rows)
    ensures |UpsertAll(map[], rows).Keys| == WrittenCount(rows)
    decreases |rows|
  {
    if rows != [] {
      var n := |rows| - 1;
      var prefix := rows[..n];
      assert DistinctCodes(prefix);
      DistinctCodesCountRows(prefix);
      if rows[n].Some? {
        var code := rows[n].value.eNumber;
        var u := UpsertAll(map[], prefix);
        assert code !in u by {
          UpsertAllAt(map[], prefix, code);
        }
        assert UpsertAll(map[], rows).Keys == u.Keys + {code} by {
          assert UpsertAll(map[], rows) == Upsert(u, rows[n]);
        }
      } else {
        assert UpsertAll(map[], rows) == UpsertAll(map[], prefix);
      }
    }
  }

  /** The converse: once a code is written twice, the table ends with
      fewer new rows than the written count, so `total_additives` exceeds
      the number of rows the batch added. */
  lemma {:induction false} RepeatedCodeLosesRows(t: Table, rows: seq<Option<Row>>)
    requires !DistinctCodes(rows)
    ensures |UpsertAll(t, rows).Keys| < |t.Keys| + WrittenCount(rows)
    decreases |rows|
  {
    var i, j :| 0 <= i < j < |rows| && rows[i].Some? && rows[j].Some? &&
      rows[i].value.eNumber == rows[j].value.eNumber;
    var n := |rows| - 1;
    var prefix := rows[..n];
    var u := UpsertAll(t, prefix);
    assert UpsertAll(t, rows) == Upsert(u, rows[n]);
    if j == n {
      var code := rows[n].value.eNumber;
      assert code in u by {
        assert Writes(prefix[i], code);
        UpsertAllAt(t, prefix, code);
      }
      assert UpsertAll(t, rows).Keys == u.Keys;
      RowCountBound(t, prefix);
    } else {
      assert !DistinctCodes(prefix) by {
        assert prefix[i] == rows[i] && prefix[j] == rows[j];
      }
      RepeatedCodeLosesRows(t, prefix);
      if rows[n].Some? {
        var code := rows[n].value.eNumber;
        if code in u {
          assert UpsertAll(t, rows).Keys == u.Keys;
        } else {
          assert UpsertAll(t, rows).Keys == u.Keys + {code};
        }
      }
    }
  }

  /** Into an empty table, `total_additives` equals the number of rows
      exactly when no code is written twice. */
  lemma TotalEqualsRowsIffDistinct(rows: seq<Option<Row>>)
    ensures |UpsertAll(map[], rows).Keys| == WrittenCount(rows) <==> DistinctCodes(rows)
  {
    if DistinctCodes(rows) {
      DistinctCodesCountRows(rows);
    } else {
      RepeatedCodeLosesRows(map[], rows);
    }
  }

  /** The stored total counts replacements: the same row written twice
      counts two, yet leaves one row. */
  lemma TotalCountsReplacements(row: Row)
    ensures WrittenCount([Some(row), Some(row)]) == 2
    ensures |UpsertAll(map[], [Some(row), Some(row)]).Keys| == 1
  {
    assert [Some(row), Some(row)][..1] == [Some(row)];
    assert [Some(row)][..0] == [];
    assert UpsertAll(map[], [Some(row)]) == map[row.eNumber := row];
    assert UpsertAll(map[], [Some(row), Some(row)]).Keys == {row.eNumber};
  }

  /** What `validate_database` finds: rows sharing a code, rows with an empty
      code or name, and the levels outside the four expected ones. */
  datatype Report = Report(duplicates: nat, missingRequired: nat, unexpectedLevels: set<string>)

  /** The rows with an empty code or an empty name. */
  function MissingRequired(t: Table): set<string> {
    set code | code in t && (t[code].eNumber == "" || t[code].name == "")
  }

  lemma MissingRequiredEmpty(t: Table)
    ensures MissingRequired(t) == {} <==> forall code :: code in t ==> t[code].eNumber != "" && t[code].name != ""
  {
    if !forall code :: code in t ==> t[code].eNumber != "" && t[code].name != "" {
      var c :| c in t && (t[c].eNumber == "" || t[c].name == "");
      assert c in MissingRequired(t);
    }
  }

  /** `validate_database`: raises when the table does not exist, and
      otherwise only reports. The table is keyed by its code, so no two rows
      share one. */
  function Validate(hasTable: bool, t: Table): (r: Result<Report, string>)
    ensures r.Err? <==> !hasTable
    ensures r.Err? ==> r.error == TABLE_MISSING
    ensures r.Ok? ==> r.value.duplicates == 0
    ensures r.Ok? ==> (r.value.missingRequired == 0 <==>
      forall code :: code in t ==> t[code].eNumber != "" && t[code].name != "")
    ensures r.Ok? ==> forall level :: level in r.value.unexpectedLevels <==>
      level !in EXPECTED_LEVELS && exists code :: code in t && t[code].riskLevel == level
  {
    if !hasTable then Err(TABLE_MISSING)
    else
      MissingRequiredEmpty(t);
      Ok(Report(0, |MissingRequired(t)|,
        set code | code in t && t[code].riskLevel !in EXPECTED_LEVELS :: t[code].riskLevel))
  }
}
