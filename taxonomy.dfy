/** The Open Food Facts taxonomy as the pipeline receives it, the additive
    record (a Python dict of text fields) that the normaliser produces, and
    the three hand-curated records appended after it. */
module Taxonomy {
  import opened Text

  /** An additive record: a Python dict from field name to text. Reading a
      missing field with `d['k']` fails; `d.get('k', default)` does not. */
  type Record = map<string, string>

  /** One taxonomy entry's attributes: field -> locale -> text. */
  type Bundle = map<string, map<string, string>>

  /** The parsed taxonomy: its keys with their bundles, in the JSON order. */
  type Taxonomy = seq<(string, Bundle)>

  const SOURCE_OFF := "Open Food Facts"
  const SOURCE_MANUAL := "Manual"
  const ADDITIVE_KEY_PREFIX := "en:e"

  /** The ten fields every record built here carries. */
  const RECORD_FIELDS: set<string> := {
    "e_number", "name", "vegetarian", "vegan", "efsa_evaluation", "efsa_url",
    "efsa_date", "additives_classes", "source", "last_updated"
  }

  /** `d.get(k, default)`. */
  function Get(d: Record, k: string, default: string): string {
    if k in d then d[k] else default
  }

  /** The three inputs the classifier and the category lookup look at: the raw code and the
      lower-cased classes and name. */
  function Code(additive: Record): string {
    Get(additive, "e_number", "")
  }

  function Classes(additive: Record): string {
    Lower(Get(additive, "additives_classes", ""))
  }

  function Name(additive: Record): string {
    Lower(Get(additive, "name", ""))
  }

  /** `value.get(field, {}).get("en", "")`. */
  function English(b: Bundle, field: string): string {
    if field in b && "en" in b[field] then b[field]["en"] else ""
  }

  /** An entry is kept when its key names an English E-number entry and its
      English `e_number` is not empty. */
  predicate Accepted(entry: (string, Bundle)) {
    StartsWith(entry.0, ADDITIVE_KEY_PREFIX) && English(entry.1, "e_number") != ""
  }

  /** The record built from one kept entry; `now` stands for the clock
      reading stored as `last_updated`. */
  function NormalizeEntry(b: Bundle, now: string): (r: Record)
    ensures r.Keys == RECORD_FIELDS
    ensures r["source"] == SOURCE_OFF && r["last_updated"] == now
  {
    map[
      "e_number" := English(b, "e_number"),
      "name" := English(b, "name"),
      "vegetarian" := English(b, "vegetarian"),
      "vegan" := English(b, "vegan"),
      "efsa_evaluation" := English(b, "efsa_evaluation"),
      "efsa_url" := English(b, "efsa_evaluation_url"),
      "efsa_date" := English(b, "efsa_evaluation_date"),
      "additives_classes" := English(b, "additives_classes"),
      "source" := SOURCE_OFF,
      "last_updated" := now
    ]
  }

  /** What the normaliser returns for a taxonomy: the kept entries' records,
      in taxonomy order. */
  function Normalize(raw: Taxonomy, now: string): (r: seq<Record>)
    ensures |r| <= |raw|
    decreases |raw|
  {
    if raw == [] then []
    else
      var last := raw[|raw| - 1];
      Normalize(raw[..|raw| - 1], now) + if Accepted(last) then [NormalizeEntry(last.1, now)] else []
  }

  /** The positions of the kept entries, in increasing order. */
  function AcceptedIndices(raw: Taxonomy): (idx: seq<nat>)
    ensures forall k :: 0 <= k < |idx| ==> idx[k] < |raw| && Accepted(raw[idx[k]])
    ensures forall k, l :: 0 <= k < l < |idx| ==> idx[k] < idx[l]
    ensures forall j :: 0 <= j < |raw| && Accepted(raw[j]) ==> j in idx
    decreases |raw|
  {
    if raw == [] then []
    else
      var n := |raw| - 1;
      var prefix := AcceptedIndices(raw[..n]);
      assert forall k :: 0 <= k < |prefix| ==> raw[..n][prefix[k]] == raw[prefix[k]];
      prefix + if Accepted(raw[n]) then [n] else []
  }

  /** The normaliser is an order-preserving filter-map: its k-th record is
      built from the k-th kept entry, and every kept entry appears. */
  lemma {:induction false} NormalizeIsFilterMap(raw: Taxonomy, now: string)
    ensures |Normalize(raw, now)| == |AcceptedIndices(raw)|
    ensures forall k :: 0 <= k < |AcceptedIndices(raw)| ==>
      Normalize(raw, now)[k] == NormalizeEntry(raw[AcceptedIndices(raw)[k]].1, now)
    decreases |raw|
  {
    if raw != [] {
      var n := |raw| - 1;
      NormalizeIsFilterMap(raw[..n], now);
      var prev, idx := Normalize(raw[..n], now), AcceptedIndices(raw[..n]);
      var extra := if Accepted(raw[n]) then [NormalizeEntry(raw[n].1, now)] else [];
      assert Normalize(raw, now) == prev + extra;
      assert AcceptedIndices(raw) == idx + if Accepted(raw[n]) then [n] else [];
      forall k | 0 <= k < |idx|
        ensures Normalize(raw, now)[k] == NormalizeEntry(raw[AcceptedIndices(raw)[k]].1, now)
      {
        assert raw[..n][idx[k]] == raw[idx[k]];
      }
    }
  }

  /** Normalising a concatenation normalises each part: the normaliser
      decides entry by entry, so a taxonomy may be processed in pieces and
      the pieces' records joined. */
  lemma {:induction false} NormalizeAppend(a: Taxonomy, b: Taxonomy, now: string)
    ensures Normalize(a + b, now) == Normalize(a, now) + Normalize(b, now)
    decreases |b|
  {
    if b == [] {
      assert a + b == a;
    } else {
      var n := |b| - 1;
      assert (a + b)[..|a + b| - 1] == a + b[..n];
      assert (a + b)[|a + b| - 1] == b[n];
      NormalizeAppend(a, b[..n], now);
    }
  }

  /** A record as the normaliser builds it: all ten fields, a non-empty
      `e_number`, the Open Food Facts source tag and the given timestamp. */
  predicate FromOpenFoodFacts(r: Record, now: string) {
    r.Keys == RECORD_FIELDS && r["e_number"] != "" && r["source"] == SOURCE_OFF && r["last_updated"] == now
  }

  /** Every record the normaliser emits has all ten fields, a non-empty
      `e_number` and the Open Food Facts source tag. */
  lemma {:induction false} NormalizedRecordsWellFormed(raw: Taxonomy, now: string)
    ensures forall r :: r in Normalize(raw, now) ==> FromOpenFoodFacts(r, now)
  {
    NormalizeIsFilterMap(raw, now);
    var out, idx := Normalize(raw, now), AcceptedIndices(raw);
    forall r | r in out
      ensures FromOpenFoodFacts(r, now)
    {
      var k :| 0 <= k < |out| && out[k] == r;
      EntryWellFormed(raw[idx[k]].1, now);
    }
  }

  lemma EntryWellFormed(b: Bundle, now: string)
    requires English(b, "e_number") != ""
    ensures FromOpenFoodFacts(NormalizeEntry(b, now), now)
  {
  }

  /** `process_openfoodfacts_data`: walk the taxonomy once, appending the
      record of every kept entry. */
  method ProcessOpenFoodFactsData(rawData: Taxonomy, now: string) returns (processed: seq<Record>)
    ensures processed == Normalize(rawData, now)
  {
    processed := [];
    var i := 0;
    while i < |rawData|
      invariant 0 <= i <= |rawData|
      invariant processed == Normalize(rawData[..i], now)
    {
      var (key, value) := rawData[i];
      assert rawData[..i + 1][..i] == rawData[..i];
      if StartsWith(key, ADDITIVE_KEY_PREFIX) {
        var eNumber := English(value, "e_number");
        if eNumber != "" {
          processed := processed + [NormalizeEntry(value, now)];
        }
      }
      i := i + 1;
    }
    assert rawData[..i] == rawData;
  }

  function ManualRecord(eNumber: string, name: string, evaluation: string, classes: string, now: string): Record {
    map[
      "e_number" := eNumber,
      "name" := name,
      "vegetarian" := "yes",
      "vegan" := "yes",
      "efsa_evaluation" := evaluation,
      "efsa_url" := "",
      "efsa_date" := "",
      "additives_classes" := classes,
      "source" := SOURCE_MANUAL,
      "last_updated" := now
    ]
  }

  /** `add_manual_additives`: Curcumin, Riboflavin and Ascorbic acid, with
      their codes written with the letter prefix. */
  function ManualAdditives(now: string): (r: seq<Record>)
    ensures |r| == 3
    ensures forall k :: 0 <= k < |r| ==> r[k].Keys == RECORD_FIELDS && r[k]["source"] == SOURCE_MANUAL
    ensures [r[0]["e_number"], r[1]["e_number"], r[2]["e_number"]] == ["E100", "E101", "E300"]
  {
    [
      ManualRecord("E100", "Curcumin", "safe", "natural colour", now),
      ManualRecord("E101", "Riboflavin", "safe vitamin", "natural vitamin colour", now),
      ManualRecord("E300", "Ascorbic acid", "safe vitamin", "natural antioxidant vitamin", now)
    ]
  }

  lemma ManualRecordFields(eNumber: string, name: string, evaluation: string, classes: string, now: string, r: Record)
    requires r == ManualRecord(eNumber, name, evaluation, classes, now)
    ensures Code(r) == eNumber && Classes(r) == Lower(classes) && Name(r) == Lower(name)
  {
  }

  /** The fields the classifier and the category lookup read from the
      curated records. */
  lemma ManualAdditivesFields(now: string)
    ensures var m := ManualAdditives(now);
      Code(m[0]) == "E100" && Classes(m[0]) == "natural colour" && Name(m[0]) == "curcumin" &&
      Code(m[1]) == "E101" && Classes(m[1]) == "natural vitamin colour" && Name(m[1]) == "riboflavin" &&
      Code(m[2]) == "E300" && Classes(m[2]) == "natural antioxidant vitamin" && Name(m[2]) == "ascorbic acid"
  {
    var m := ManualAdditives(now);
    ManualRecordFields("E100", "Curcumin", "safe", "natural colour", now, m[0]);
    ManualRecordFields("E101", "Riboflavin", "safe vitamin", "natural vitamin colour", now, m[1]);
    ManualRecordFields("E300", "Ascorbic acid", "safe vitamin", "natural antioxidant vitamin", now, m[2]);
    ManualTextLowered();
  }

  /** The curated records' names as the insert stores them. */
  lemma ManualNames(now: string)
    ensures var m := ManualAdditives(now);
      m[0]["name"] == "Curcumin" && m[1]["name"] == "Riboflavin" && m[2]["name"] == "Ascorbic acid"
  {
  }

  lemma ManualTextLowered()
    ensures Lower("Curcumin") == "curcumin" && Lower("natural colour") == "natural colour"
    ensures Lower("Riboflavin") == "riboflavin" && Lower("natural vitamin colour") == "natural vitamin colour"
    ensures Lower("Ascorbic acid") == "ascorbic acid" && Lower("natural antioxidant vitamin") == "natural antioxidant vitamin"
  {
    assert Lower("Curcumin") == "curcumin";
    assert Lower("Riboflavin") == "riboflavin";
    assert Lower("Ascorbic acid") == "ascorbic acid";
  }
}
