/** `AdditivesSQLiteCreator`: the SQLite file as an object whose methods
    reset it, fill it from a batch of records and validate it, and the
    pipeline that runs them in order. */
module SqliteCreator {
  import opened Wrappers
  import opened Text
  import opened Taxonomy
  import opened AdditiveStore
  import RiskClassifier
  import CategoryResolver

  /** What the insert asks of `classify_risk_level` and
      `get_additive_category` for one record: one of the four level/colour
      pairs, and a category label. */
  function Assess(additive: Record): (x: Assessment)
    ensures (x.riskLevel, x.riskColor) in RiskClassifier.RISK_PAIRS
    ensures x.riskLevel in EXPECTED_LEVELS && x.riskColor == Lower(x.riskLevel)
  {
    var (level, colour) := RiskClassifier.ClassifyRiskLevel(additive);
    PairLevelExpected((level, colour));
    Assessment(level, colour, CategoryResolver.CategoryOf(additive).Label())
  }

  lemma PairLevelExpected(p: RiskClassifier.RiskPair)
    requires p in RiskClassifier.RISK_PAIRS
    ensures p.0 in EXPECTED_LEVELS
  {
  }

  /** The stored code, name and classes, as a record the classifier and the
      category lookup can read. */
  function RowRecord(row: Row): Record {
    map["e_number" := row.eNumber, "name" := row.name, "additives_classes" := row.additivesClasses]
  }

  /** The stored level, colour and category are what assessing the stored
      code, name and classes gives. */
  predicate Classified(row: Row) {
    Assess(RowRecord(row)) == Assessment(row.riskLevel, row.riskColor, row.category)
  }

  predicate TableClassified(t: Table) {
    forall code :: code in t ==> Classified(t[code])
  }

  /** The classifier and the category lookup read only the code, the
      classes and the name. */
  lemma SameInputsSameAssessment(a: Record, b: Record)
    requires Code(a) == Code(b) && Classes(a) == Classes(b) && Name(a) == Name(b)
    ensures Assess(a) == Assess(b)
  {
    RiskClassifier.LevelReadsOnlyFacts(a, b);
  }

  /** A row built from a record's own assessment agrees with what its stored
      fields assess to. */
  lemma AssessedRowClassified(additive: Record, now: string)
    requires Writable(additive)
    ensures Classified(MakeRow(additive, now, Assess(additive)))
  {
    SameInputsSameAssessment(additive, RowRecord(MakeRow(additive, now, Assess(additive))));
  }

  /** A store whose rows all agree with their assessment never reports an
      unexpected level. */
  lemma ClassifiedValidates(t: Table)
    requires TableClassified(t)
    ensures Validate(true, t).Ok? && Validate(true, t).value.unexpectedLevels == {}
  {
    forall code | code in t
      ensures t[code].riskLevel in EXPECTED_LEVELS
    {
      assert Classified(t[code]);
    }
  }

  /** The body of the insert loop for one record, with the classifier and
      the category lookup called as `insert_additives_data` calls them: the
      row is the one `UpsertEach` builds from `Assess`, and it agrees with
      it. */
  method PrepareRow(additive: Record, now: string) returns (row: Option<Row>)
    ensures row == Prepare(additive, now, Assess(additive))
    ensures row.Some? ==> Classified(row.value)
  {
    var (level, colour) := RiskClassifier.ClassifyRiskLevel(additive);
    var category := CategoryResolver.GetAdditiveCategory(additive);
    if "e_number" in additive && "name" in additive {
      var code := additive["e_number"];
      row := Some(Row(
        code, additive["name"], level, colour, category.Label(), "Food additive " + code,
        Get(additive, "vegetarian", ""), Get(additive, "vegan", ""),
        Get(additive, "efsa_evaluation", ""), Get(additive, "efsa_url", ""),
        Get(additive, "efsa_date", ""), Get(additive, "additives_classes", ""),
        Get(additive, "source", ""), Get(additive, "last_updated", now)));
      assert row.value == MakeRow(additive, now, Assess(additive));
      AssessedRowClassified(additive, now);
    } else {
      row := None;
    }
  }

  /** The batch the pipeline inserts: the normalised taxonomy, then the
      curated records. */
  function AllAdditives(raw: Taxonomy, now: string): seq<Record> {
    Normalize(raw, now) + ManualAdditives(now)
  }

  /** Every record of the pipeline's batch is written, under a non-empty
      code, whatever the assessment, so the stored total is the number of
      normalised records plus three. */
  lemma AllAdditivesWritten(raw: Taxonomy, now: string, assess: Record -> Assessment)
    ensures var rows := PrepareAll(AllAdditives(raw, now), now, assess);
      (forall i :: 0 <= i < |rows| ==> rows[i].Some? && rows[i].value.eNumber != "") &&
      WrittenCount(rows) == |Normalize(raw, now)| + 3
  {
    var p, m := Normalize(raw, now), ManualAdditives(now);
    NormalizedRecordsWellFormed(raw, now);
    forall i | 0 <= i < |p + m|
      ensures Writable((p + m)[i]) && (p + m)[i]["e_number"] != ""
    {
      if i < |p| {
        assert (p + m)[i] in p;
      } else {
        assert (p + m)[i] == m[i - |p|];
      }
    }
    WrittenUnderOwnCodes(p + m, now, assess);
  }

  lemma WrittenUnderOwnCodes(batch: seq<Record>, now: string, assess: Record -> Assessment)
    requires forall i :: 0 <= i < |batch| ==> Writable(batch[i]) && batch[i]["e_number"] != ""
    ensures var rows := PrepareAll(batch, now, assess);
      forall i :: 0 <= i < |rows| ==> rows[i].Some? && rows[i].value.eNumber != ""
  {
    forall i | 0 <= i < |batch|
      ensures PrepareAll(batch, now, assess)[i].Some? && PrepareAll(batch, now, assess)[i].value.eNumber != ""
    {
      PrepareAllAt(batch, now, assess, i);
    }
  }

  /** The name, level and category a stored row shows. */
  predicate Shows(row: Row, name: string, level: string, category: string) {
    row.name == name && row.riskLevel == level && row.category == category
  }

  /** A record's row carries its name, the level the classifier gives it
      and the label of its category. */
  lemma RowShows(additive: Record, now: string, name: string,
                 level: RiskClassifier.RiskLevel, category: CategoryResolver.Category)
    requires Writable(additive) && additive["name"] == name
    requires RiskClassifier.RiskLevelOf(additive) == level && CategoryResolver.CategoryOf(additive) == category
    ensures Shows(MakeRow(additive, now, Assess(additive)), name, level.Pair().0, category.Label())
  {
  }

  /** What the curated rows show: Curcumin and Riboflavin YELLOW "Food
      Colors", Ascorbic acid GREEN "Antioxidants". */
  lemma ManualRowsShow(now: string)
    ensures var m := ManualAdditives(now);
      Shows(MakeRow(m[0], now, Assess(m[0])), "Curcumin", "YELLOW", "Food Colors") &&
      Shows(MakeRow(m[1], now, Assess(m[1])), "Riboflavin", "YELLOW", "Food Colors") &&
      Shows(MakeRow(m[2], now, Assess(m[2])), "Ascorbic acid", "GREEN", "Antioxidants")
  {
    var m := ManualAdditives(now);
    RiskClassifier.ManualAdditivesRisk(now);
    CategoryResolver.ManualAdditivesCategory(now);
    ManualNames(now);
    RowShows(m[0], now, "Curcumin", RiskClassifier.YELLOW, CategoryResolver.FoodColors);
    RowShows(m[1], now, "Riboflavin", RiskClassifier.YELLOW, CategoryResolver.FoodColors);
    RowShows(m[2], now, "Ascorbic acid", RiskClassifier.GREEN, CategoryResolver.Antioxidants);
  }

  /** The rows of three records that can all be read, in order. */
  lemma PrepareThree(batch: seq<Record>, now: string, assess: Record -> Assessment)
    requires |batch| == 3 && Writable(batch[0]) && Writable(batch[1]) && Writable(batch[2])
    ensures PrepareAll(batch, now, assess) == [
      Some(MakeRow(batch[0], now, assess(batch[0]))),
      Some(MakeRow(batch[1], now, assess(batch[1]))),
      Some(MakeRow(batch[2], now, assess(batch[2])))]
  {
    PrepareAllAt(batch, now, assess, 0);
    PrepareAllAt(batch, now, assess, 1);
    PrepareAllAt(batch, now, assess, 2);
  }

  /** Three rows under three different codes: each is the last under its
      own code. */
  lemma LastOfThree(r0: Row, r1: Row, r2: Row)
    requires r0.eNumber == "E100" && r1.eNumber == "E101" && r2.eNumber == "E300"
    ensures var q := [Some(r0), Some(r1), Some(r2)];
      LastWith(q, "E100") == Some(r0) && LastWith(q, "E101") == Some(r1) && LastWith(q, "E300") == Some(r2)
  {
    var q := [Some(r0), Some(r1), Some(r2)];
    assert "E300" != "E100" && "E300" != "E101" by { assert "E300"[1] != "E100"[1] && "E300"[1] != "E101"[1]; }
    assert "E101" != "E100" by { assert "E101"[3] != "E100"[3]; }
    assert q[..2] == [Some(r0), Some(r1)] && q[..2][..1] == [Some(r0)];
    assert LastWith([Some(r0)], "E100") == Some(r0);
    assert LastWith([Some(r0), Some(r1)], "E100") == Some(r0);
    assert LastWith([Some(r0), Some(r1)], "E101") == Some(r1);
  }

  lemma CuratedCode(p: seq<Option<Row>>, q: seq<Option<Row>>, code: string)
    requires LastWith(q, code).Some?
    ensures code in UpsertAll(map[], p + q) && UpsertAll(map[], p + q)[code] == LastWith(q, code).value
  {
    LastWithAppend(p, q, code);
    UpsertAllAt(map[], p + q, code);
  }

  /** Whatever the taxonomy holds, the curated records come last and so
      decide the rows under E100, E101 and E300: Curcumin and Riboflavin are
      stored YELLOW "Food Colors", Ascorbic acid GREEN "Antioxidants". */
  lemma CuratedRowsWin(raw: Taxonomy, now: string)
    ensures var t := UpsertAll(map[], PrepareAll(AllAdditives(raw, now), now, Assess));
      "E100" in t && "E101" in t && "E300" in t &&
      Shows(t["E100"], "Curcumin", "YELLOW", "Food Colors") &&
      Shows(t["E101"], "Riboflavin", "YELLOW", "Food Colors") &&
      Shows(t["E300"], "Ascorbic acid", "GREEN", "Antioxidants")
  {
    var m := ManualAdditives(now);
    var r0, r1, r2 := MakeRow(m[0], now, Assess(m[0])), MakeRow(m[1], now, Assess(m[1])), MakeRow(m[2], now, Assess(m[2]));
    var p := PrepareAll(Normalize(raw, now), now, Assess);
    var q := [Some(r0), Some(r1), Some(r2)];
    PrepareAllAppend(Normalize(raw, now), m, now, Assess);
    PrepareThree(m, now, Assess);
    ManualRowsShow(now);
    LastOfThree(r0, r1, r2);
    CuratedCode(p, q, "E100");
    CuratedCode(p, q, "E101");
    CuratedCode(p, q, "E300");
  }

  predicate RowsClassified(rows: seq<Option<Row>>) {
    forall i :: 0 <= i < |rows| && rows[i].Some? ==> Classified(rows[i].value)
  }

  /** Every row prepared with the real assessment agrees with it. */
  lemma PreparedRowsClassified(batch: seq<Record>, now: string)
    ensures RowsClassified(PrepareAll(batch, now, Assess))
  {
    forall i | 0 <= i < |batch| && PrepareAll(batch, now, Assess)[i].Some?
      ensures Classified(PrepareAll(batch, now, Assess)[i].value)
    {
      PrepareAllAt(batch, now, Assess, i);
      AssessedRowClassified(batch[i], now);
    }
  }

  /** Upserting rows that agree with their assessment into a table whose
      rows do keeps every row agreeing with its own. */
  lemma UpsertAllClassified(t: Table, rows: seq<Option<Row>>)
    requires TableClassified(t) && RowsClassified(rows)
    ensures TableClassified(UpsertAll(t, rows))
  {
    forall code | code in UpsertAll(t, rows)
      ensures Classified(UpsertAll(t, rows)[code])
    {
      UpsertAllAt(t, rows, code);
      if LastWith(rows, code).Some? {
        var i :| 0 <= i < |rows| && rows[i] == LastWith(rows, code) &&
          forall j :: i < j < |rows| ==> !Writes(rows[j], code);
      }
    }
  }

  /** Inserting a batch into a table whose rows are well formed and agree
      with their assessment keeps them so. */
  lemma InsertedRowsValid(t: Table, batch: seq<Record>, now: string)
    requires TableWellFormed(t) && TableClassified(t)
    ensures TableWellFormed(UpsertAll(t, PrepareAll(batch, now, Assess)))
    ensures TableClassified(UpsertAll(t, PrepareAll(batch, now, Assess)))
  {
    PreparedRowsWellFormed(batch, now, Assess);
    UpsertAllWellFormed(t, PrepareAll(batch, now, Assess));
    PreparedRowsClassified(batch, now);
    UpsertAllClassified(t, PrepareAll(batch, now, Assess));
  }

  /** The SQLite file. Before the schema step there is no table; afterwards
      `additives` holds the rows and `metadata` the key/value pairs. */
  class AdditivesDatabase {
    var hasTable: bool
    var additives: Table
    var metadata: map<string, string>

    ghost predicate Valid()
      reads this
    {
      TableWellFormed(additives) && TableClassified(additives) &&
      (hasTable ==> TOTAL_KEY in metadata) &&
      (!hasTable ==> additives == map[])
    }

    /** A store before its schema exists. */
    constructor ()
      ensures Valid() && !hasTable && additives == map[] && metadata == map[]
    {
      hasTable := false;
      additives := map[];
      metadata := map[];
    }

    /** `create_database_schema`: drop whatever the file held and start with
      an empty table and the initial metadata. */
    method CreateDatabaseSchema(createdDate: string)
      modifies this
      ensures Valid() && hasTable
      ensures additives == map[] && metadata == InitialMetadata(createdDate)
    {
      hasTable := true;
      additives := map[];
      metadata := InitialMetadata(createdDate);
    }

    /** `insert_additives_data`: upsert each record in order, counting the
      ones written and the ones that raise, then store the written count as
      `total_additives`. */
    method InsertAdditivesData(batch: seq<Record>, now: string) returns (inserted: nat, errors: nat)
      requires Valid() && hasTable
      modifies this
      ensures Valid() && hasTable
      ensures additives == UpsertAll(old(additives), PrepareAll(batch, now, Assess))
      ensures inserted == WrittenCount(PrepareAll(batch, now, Assess)) && inserted + errors == |batch|
      ensures metadata == old(metadata)[TOTAL_KEY := NatToString(inserted)]
    {
      inserted, errors := UpsertEach(batch, now, Assess);
      InsertedRowsValid(old(additives), batch, now);
      metadata := metadata[TOTAL_KEY := NatToString(inserted)];
    }

    /** The loop of `insert_additives_data`: one `INSERT OR REPLACE` per
      record that can be read, one error for each that raises. `assess`
      stands for the classifier and the category lookup the loop calls.
      Only `InsertAdditivesData` calls it, with `Assess`; that method
      restores `Valid()` afterwards through `InsertedRowsValid`, which
      rests on `UpsertAllClassified`. */
    method UpsertEach(batch: seq<Record>, now: string, assess: Record -> Assessment) returns (inserted: nat, errors: nat)
      modifies this
      ensures additives == UpsertAll(old(additives), PrepareAll(batch, now, assess))
      ensures inserted == WrittenCount(PrepareAll(batch, now, assess)) && inserted + errors == |batch|
      ensures hasTable == old(hasTable) && metadata == old(metadata)
    {
      inserted, errors := 0, 0;
      var t, i := additives, 0;
      while i < |batch|
        invariant 0 <= i <= |batch|
        invariant t == UpsertAll(additives, PrepareAll(batch[..i], now, assess))
        invariant inserted == WrittenCount(PrepareAll(batch[..i], now, assess)) && inserted + errors == i
        invariant unchanged(this)
      {
        var row := Prepare(batch[i], now, assess(batch[i]));
        InsertStep(additives, batch, now, assess, i, t, inserted, row);
        if row.Some? {
          t := t[row.value.eNumber := row.value];
          inserted := inserted + 1;
        } else {
          errors := errors + 1;
        }
        i := i + 1;
      }
      assert batch[..i] == batch;
      additives := t;
    }

    /** `create_kmp_ready_database`: nothing happens when the download gave
      nothing (no taxonomy, or an empty one); otherwise the store is rebuilt
      from the normalised taxonomy followed by the curated records, and
      validated. `now` stands for every clock reading of the run. */
    method CreateKmpReadyDatabase(rawData: Option<Taxonomy>, now: string) returns (success: bool)
      modifies this
      ensures success <==> rawData.Some? && rawData.value != []
      ensures !success ==> unchanged(this)
      ensures success ==> Valid() && hasTable
      ensures success ==> additives == UpsertAll(map[], PrepareAll(AllAdditives(rawData.value, now), now, Assess))
      ensures success ==> metadata == InitialMetadata(now)[TOTAL_KEY := NatToString(|Normalize(rawData.value, now)| + 3)]
      ensures success ==> Validate(hasTable, additives).Ok? && Validate(hasTable, additives).value.unexpectedLevels == {}
    {
      if rawData.None? || rawData.value == [] {
        return false;
      }
      var processed := ProcessOpenFoodFactsData(rawData.value, now);
      var manual := ManualAdditives(now);
      var all := processed + manual;
      CreateDatabaseSchema(now);
      var inserted, errors := InsertAdditivesData(all, now);
      AllAdditivesWritten(rawData.value, now, Assess);
      var report := Validate(hasTable, additives);
      ClassifiedValidates(additives);
      success := true;
    }
  }
}
